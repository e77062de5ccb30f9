/** Loading records (src/io/load_data.py): column-name normalisation, the
    choice of the id and text columns among the configured candidates, and
    the building of one record per row of an already read table. */
module LoadData {
  import opened Wrappers
  import opened Strings
  import opened Schemas

  /** `_normalize_col`: surrounding whitespace removed, then lower-cased. */
  function NormalizeCol(c: string): (n: string)
    ensures |n| <= |c|
    ensures forall k :: 0 <= k < |n| ==> !IsUpperLatin1(n[k])
    ensures n == [] || (!IsSpace(n[0]) && !IsSpace(n[|n| - 1]))
    ensures exists i, j :: 0 <= i <= j <= |c| && n == Lower(c[i..j])
                           && (forall k :: 0 <= k < i ==> IsSpace(c[k]))
                           && (forall k :: j <= k < |c| ==> IsSpace(c[k]))
  {
    LowerKeepsEnds(Strip(c));
    Lower(Strip(c))
  }

  /** Normalising a normalised name changes nothing. */
  lemma NormalizeIdempotent(c: string)
    ensures NormalizeCol(NormalizeCol(c)) == NormalizeCol(c)
  {
    var n := NormalizeCol(c);
    StripOfStripped(n);
    LowerOfLowered(n);
    calc {
      NormalizeCol(n);
      Lower(Strip(n));
      { assert Strip(n) == n; }
      Lower(n);
      n;
    }
  }

  /** Column `j` normalises to `key`, and no later column does. */
  predicate LastWith(columns: seq<string>, j: int, key: string)
  {
    0 <= j < |columns| && NormalizeCol(columns[j]) == key
    && forall j' :: j < j' < |columns| ==> NormalizeCol(columns[j']) != key
  }

  /** Some column normalises to `key`. */
  predicate HasColumn(columns: seq<string>, key: string)
  {
    exists c :: c in columns && NormalizeCol(c) == key
  }

  /** The dictionary `{_normalize_col(c): c for c in columns}`, built entry
      by entry, later entries overwriting earlier ones. */
  function NormIndex(columns: seq<string>): (m: map<string, string>)
    ensures forall key :: key in m ==> m[key] in columns && NormalizeCol(m[key]) == key
  {
    if columns == [] then map[]
    else NormIndex(columns[..|columns| - 1])[NormalizeCol(columns[|columns| - 1]) := columns[|columns| - 1]]
  }

  /** The dictionary has one key per normalised name. */
  lemma {:induction false} NormIndexKeys(columns: seq<string>)
    ensures forall key :: key in NormIndex(columns) <==> HasColumn(columns, key)
  {
    if columns != [] {
      var init := columns[..|columns| - 1];
      var last := columns[|columns| - 1];
      NormIndexKeys(init);
      assert columns == init + [last];
      forall key
        ensures key in NormIndex(columns) <==> HasColumn(columns, key)
      {
        if HasColumn(columns, key) && key != NormalizeCol(last) {
          var c :| c in columns && NormalizeCol(c) == key;
          assert c in init;
        }
        if HasColumn(init, key) {
          var c :| c in init && NormalizeCol(c) == key;
          assert c in columns;
        }
      }
    }
  }

  /** A last column for a name stays last when a column with another name
      is appended. */
  lemma LastWithExtend(init: seq<string>, last: string, j: int, key: string)
    requires LastWith(init, j, key) && NormalizeCol(last) != key
    ensures LastWith(init + [last], j, key)
  {
    var columns := init + [last];
    forall j' | j < j' < |columns| ensures NormalizeCol(columns[j']) != key {
      if j' < |init| {
        assert columns[j'] == init[j'];
      }
    }
  }

  /** Each key of the dictionary is mapped to the last column with that
      normalised name. */
  lemma {:induction false} NormIndexValues(columns: seq<string>)
    ensures forall key :: key in NormIndex(columns) ==> exists j :: LastWith(columns, j, key) && NormIndex(columns)[key] == columns[j]
  {
    if columns != [] {
      var init := columns[..|columns| - 1];
      var last := columns[|columns| - 1];
      assert columns == init + [last];
      NormIndexValues(init);
      var norm := NormIndex(columns);
      assert norm == NormIndex(init)[NormalizeCol(last) := last];
      assert LastWith(columns, |columns| - 1, NormalizeCol(last));
      forall key | key in norm
        ensures exists j :: LastWith(columns, j, key) && norm[key] == columns[j]
      {
        if key != NormalizeCol(last) {
          assert norm[key] == NormIndex(init)[key];
          var j :| LastWith(init, j, key) && NormIndex(init)[key] == init[j];
          LastWithExtend(init, last, j, key);
          assert columns[j] == init[j];
        } else {
          assert norm[key] == columns[|columns| - 1];
        }
      }
    }
  }

  /** The loop of `_pick_column` over the candidates: the first candidate
      present in `norm`, looked up, or nothing. */
  function PickFrom(norm: map<string, string>, candidates: seq<string>): (r: Option<string>)
    ensures r.None? <==> forall i :: 0 <= i < |candidates| ==> candidates[i] !in norm
    ensures r.Some? ==> exists i :: 0 <= i < |candidates| && candidates[i] in norm && r.value == norm[candidates[i]]
                               && forall i' :: 0 <= i' < i ==> candidates[i'] !in norm
  {
    if candidates == [] then None
    else if candidates[0] in norm then Some(norm[candidates[0]])
    else
      var r := PickFrom(norm, candidates[1..]);
      assert r.Some? ==> exists i :: 1 <= i < |candidates| && candidates[i] in norm && r.value == norm[candidates[i]]
                                && forall i' :: 0 <= i' < i ==> candidates[i'] !in norm by {
        if r.Some? {
          var i :| 0 <= i < |candidates| - 1 && candidates[1..][i] in norm && r.value == norm[candidates[1..][i]]
                   && forall i' :: 0 <= i' < i ==> candidates[1..][i'] !in norm;
          assert forall i' :: 0 <= i' < i + 1 ==> candidates[i'] !in norm by {
            forall i' | 0 <= i' < i + 1 ensures candidates[i'] !in norm {
              if i' > 0 { assert candidates[i'] == candidates[1..][i' - 1]; }
            }
          }
        }
      }
      r
  }

  /** `_pick_column`: the first candidate, in candidate order, that some
      column normalises to; the result is that column's original name (the
      last such column if several normalise alike), or nothing when no
      candidate matches. The candidate order decides, not the column order. */
  function PickColumn(columns: seq<string>, candidates: seq<string>): (r: Option<string>)
    ensures r.None? <==> forall i :: 0 <= i < |candidates| ==> !HasColumn(columns, candidates[i])
    ensures r.Some? ==> r.value in columns && NormalizeCol(r.value) in candidates
    ensures r.Some? ==> exists i, j :: 0 <= i < |candidates| && LastWith(columns, j, candidates[i]) && r.value == columns[j]
                                  && forall i' :: 0 <= i' < i ==> !HasColumn(columns, candidates[i'])
  {
    var norm := NormIndex(columns);
    NormIndexKeys(columns);
    NormIndexValues(columns);
    var r := PickFrom(norm, candidates);
    if r.Some? then
      var i :| 0 <= i < |candidates| && candidates[i] in norm && r.value == norm[candidates[i]]
               && forall i' :: 0 <= i' < i ==> candidates[i'] !in norm;
      var j :| LastWith(columns, j, candidates[i]) && norm[candidates[i]] == columns[j];
      r
    else r
  }

  /** The last index of `c` in `s`, or -1 (`str.rfind`). */
  function RFind(s: string, c: char): (i: int)
    ensures -1 <= i < |s|
    ensures i >= 0 ==> s[i] == c
    ensures forall k :: i < k < |s| ==> s[k] != c
  {
    if s == [] then -1
    else if s[|s| - 1] == c then |s| - 1
    else RFind(s[..|s| - 1], c)
  }

  /** The final component of a `/`-separated path: all of it, or what follows
      its last `/`. */
  function FileName(path: string): (name: string)
    ensures '/' !in name
    ensures name == path || (|name| < |path| && path[|path| - |name| - 1] == '/' && path[|path| - |name|..] == name)
  {
    var k := RFind(path, '/');
    path[k + 1..]
  }

  /** `Path.suffix`: the final component's last dot and what follows it, as
      long as that dot is neither its first nor its last character;
      otherwise empty. */
  function Suffix(path: string): (suf: string)
    ensures suf == [] || (|suf| >= 2 && suf[0] == '.' && '.' !in suf[1..] && '/' !in suf)
    ensures var name := FileName(path);
      suf != [] ==> |suf| < |name| && suf == name[|name| - |suf|..]
    ensures var name := FileName(path);
      suf == [] <==> (forall k :: 0 < k < |name| ==> name[k] != '.') || (name != [] && name[|name| - 1] == '.')
  {
    var name := FileName(path);
    var i := RFind(name, '.');
    if 0 < i < |name| - 1 then
      name[i..]
    else []
  }

  /** The suffixes `load_records` reads, compared after lower-casing. */
  predicate SupportedSuffix(suffix: string)
  {
    Lower(suffix) in {".xlsx", ".xls", ".csv", ".jsonl"}
  }

  /** One cell of a read table: a string, an integer, a missing value (NaN:
      an absent key or an empty field) or a JSON `null` kept as `None`. */
  datatype Cell = Text(s: string) | Int(n: int) | Missing | Null

  /** `pd.isna(cell)`: true for NaN and for `None`. */
  predicate IsNa(c: Cell)
  {
    c.Missing? || c.Null?
  }

  /** `str(cell)`. */
  function CellStr(c: Cell): string
  {
    match c
    case Text(s) => s
    case Int(n) => if n < 0 then "-" + NatToString(-n) else NatToString(n)
    case Missing => "nan"
    case Null => "None"
  }

  /** The text of a record: a missing value (NaN or `None`) becomes the
      empty string. */
  function CellText(c: Cell): (t: string)
    ensures IsNa(c) ==> t == ""
    ensures !IsNa(c) ==> t == CellStr(c)
  {
    if IsNa(c) then "" else CellStr(c)
  }

  /** A read table: distinct column names and rows of one cell per column. */
  datatype Frame = Frame(columns: seq<string>, rows: seq<seq<Cell>>)

  predicate WellFormed(f: Frame)
  {
    (forall i, j :: 0 <= i < j < |f.columns| ==> f.columns[i] != f.columns[j])
    && (forall r :: 0 <= r < |f.rows| ==> |f.rows[r]| == |f.columns|)
  }

  /** `df.empty`: no rows or no columns. */
  predicate EmptyFrame(f: Frame)
  {
    |f.rows| == 0 || |f.columns| == 0
  }

  /** The position of a column name. */
  function ColumnIndex(columns: seq<string>, name: string): (i: nat)
    requires name in columns
    ensures i < |columns| && columns[i] == name
  {
    if columns[0] == name then 0 else 1 + ColumnIndex(columns[1..], name)
  }

  /** `df[name] = cells`: an existing column is overwritten where it stands, a
      new one is appended at the end. */
  function WithColumn(f: Frame, name: string, cells: seq<Cell>): (g: Frame)
    requires WellFormed(f) && |cells| == |f.rows|
    ensures WellFormed(g) && |g.rows| == |f.rows| && name in g.columns
    ensures forall r :: 0 <= r < |g.rows| ==> g.rows[r][ColumnIndex(g.columns, name)] == cells[r]
    ensures g.columns == if name in f.columns then f.columns else f.columns + [name]
    ensures forall c :: c in f.columns ==> c in g.columns
    ensures forall c, r :: c in f.columns && c != name && 0 <= r < |g.rows| ==>
      g.rows[r][ColumnIndex(g.columns, c)] == f.rows[r][ColumnIndex(f.columns, c)]
  {
    if name in f.columns then
      var k := ColumnIndex(f.columns, name);
      var g := Frame(f.columns, seq(|f.rows|, r requires 0 <= r < |f.rows| => f.rows[r][k := cells[r]]));
      assert forall c :: c in f.columns ==> ColumnIndex(g.columns, c) == ColumnIndex(f.columns, c);
      g
    else
      var g := Frame(f.columns + [name], seq(|f.rows|, r requires 0 <= r < |f.rows| => f.rows[r] + [cells[r]]));
      assert forall c :: c in f.columns ==> ColumnIndex(g.columns, c) == ColumnIndex(f.columns, c) by {
        forall c | c in f.columns ensures ColumnIndex(g.columns, c) == ColumnIndex(f.columns, c) {
          var i := ColumnIndex(f.columns, c);
          assert g.columns[i] == c;
          ColumnIndexUnique(g.columns, c, i);
        }
      }
      ColumnIndexUnique(g.columns, name, |f.columns|);
      g
  }

  /** With distinct names, the position of a name is the one place it occurs. */
  lemma {:induction false} ColumnIndexUnique(columns: seq<string>, name: string, i: nat)
    requires forall a, b :: 0 <= a < b < |columns| ==> columns[a] != columns[b]
    requires i < |columns| && columns[i] == name
    ensures ColumnIndex(columns, name) == i
  {
    if i > 0 {
      ColumnIndexUnique(columns[1..], name, i - 1);
    }
  }

  /** The index strings `"0"`, `"1"`, … of a table of `n` rows. */
  function IndexStrings(n: nat): (cells: seq<Cell>)
    ensures |cells| == n
    ensures forall r :: 0 <= r < n ==> cells[r] == Text(NatToString(r))
  {
    seq(n, r requires 0 <= r < n => Text(NatToString(r)))
  }

  /** The id of row `r`: the `str` of its id cell, or its row number when the
      table has no id column. */
  function RowId(f: Frame, idCol: Option<string>, r: nat): string
    requires WellFormed(f) && r < |f.rows|
    requires idCol.Some? ==> idCol.value in f.columns
  {
    match idCol
    case Some(c) => CellStr(f.rows[r][ColumnIndex(f.columns, c)])
    case None => NatToString(r)
  }

  /** The records of a table with the chosen columns: one per row, in row
      order, with the row's id and its text (a missing text read as ""). */
  function TableRecords(f: Frame, idCol: Option<string>, textCol: string): (recs: seq<Record>)
    requires WellFormed(f) && textCol in f.columns
    requires idCol.Some? ==> idCol.value in f.columns
    ensures |recs| == |f.rows|
    ensures forall r :: 0 <= r < |recs| ==>
      recs[r].id == (if idCol.Some? then CellStr(f.rows[r][ColumnIndex(f.columns, idCol.value)]) else NatToString(r))
    ensures forall r :: 0 <= r < |recs| ==> recs[r].text == CellText(f.rows[r][ColumnIndex(f.columns, textCol)])
  {
    seq(|f.rows|, r requires 0 <= r < |f.rows| =>
      Record(RowId(f, idCol, r), CellText(f.rows[r][ColumnIndex(f.columns, textCol)])))
  }

  /** The records loop: one record per row, in row order. */
  method BuildRecords(f: Frame, idCol: string, textCol: string) returns (out: seq<Record>)
    requires WellFormed(f) && idCol in f.columns && textCol in f.columns
    ensures out == TableRecords(f, Some(idCol), textCol)
  {
    var idIdx := ColumnIndex(f.columns, idCol);
    var textIdx := ColumnIndex(f.columns, textCol);
    out := [];
    for r := 0 to |f.rows|
      invariant |out| == r
      invariant forall k :: 0 <= k < r ==> out[k] == TableRecords(f, Some(idCol), textCol)[k]
    {
      var rid := CellStr(f.rows[r][idIdx]);
      var text := if IsNa(f.rows[r][textIdx]) then "" else CellStr(f.rows[r][textIdx]);
      out := out + [Record(rid, text)];
    }
  }

  /** The name of the generated id column is not a text column. */
  lemma GeneratedColumnIsNotText(c: string)
    requires NormalizeCol(c) in TextColumnCandidates
    ensures c != "__id__"
  {
    if c == "__id__" {
      StripOfStripped(c);
      assert false;
    }
  }

  /** Adding the generated `__id__` column and reading the ids from it gives
      the row numbers as ids, and leaves the texts as they were. */
  lemma GeneratedColumnRecords(f: Frame, textCol: string)
    requires WellFormed(f) && textCol in f.columns && textCol != "__id__"
    ensures var df := WithColumn(f, "__id__", IndexStrings(|f.rows|));
      textCol in df.columns && TableRecords(df, Some("__id__"), textCol) == TableRecords(f, None, textCol)
  {
    var df := WithColumn(f, "__id__", IndexStrings(|f.rows|));
    var recs, orig := TableRecords(df, Some("__id__"), textCol), TableRecords(f, None, textCol);
    forall r | 0 <= r < |recs|
      ensures recs[r] == orig[r]
    {
      assert recs[r].id == NatToString(r);
      assert recs[r].text == CellText(f.rows[r][ColumnIndex(f.columns, textCol)]);
    }
  }

  /** Reading the records off the chosen columns, adding the generated
      `__id__` column first when there is no id column. */
  method RecordsOfTable(f: Frame, idCol: Option<string>, textCol: string) returns (out: seq<Record>)
    requires WellFormed(f) && textCol in f.columns && NormalizeCol(textCol) in TextColumnCandidates
    requires idCol.Some? ==> idCol.value in f.columns
    ensures out == TableRecords(f, idCol, textCol)
  {
    if idCol.None? {
      var df := WithColumn(f, "__id__", IndexStrings(|f.rows|));
      GeneratedColumnIsNotText(textCol);
      GeneratedColumnRecords(f, textCol);
      out := BuildRecords(df, "__id__", textCol);
    } else {
      out := BuildRecords(f, idCol.value, textCol);
    }
  }

  /** Why records cannot be loaded. */
  datatype LoadError = Unsupported(suffix: string) | NoTextColumn(columns: seq<string>)

  /** `load_records` on a file whose table has already been read into `f`.
      An unsupported suffix (compared case-insensitively) is an error; an
      empty table gives no records; a table with no recognisable text column
      is an error; otherwise there is one record per row, in order, whose id
      is its id cell or, with no id column, its row number, and whose text is
      its text cell with a missing value read as "". */
  method LoadRecords(path: string, f: Frame) returns (result: Result<seq<Record>, LoadError>)
    requires WellFormed(f)
    ensures !SupportedSuffix(Suffix(path)) ==> result == Err(Unsupported(Lower(Suffix(path))))
    ensures SupportedSuffix(Suffix(path)) && EmptyFrame(f) ==> result == Ok([])
    ensures SupportedSuffix(Suffix(path)) && !EmptyFrame(f) && PickColumn(f.columns, TextColumnCandidates).None? ==>
      result == Err(NoTextColumn(f.columns))
    ensures SupportedSuffix(Suffix(path)) && !EmptyFrame(f) && PickColumn(f.columns, TextColumnCandidates).Some? ==>
      result == Ok(TableRecords(f, PickColumn(f.columns, IdColumnCandidates), PickColumn(f.columns, TextColumnCandidates).value))
  {
    var suffix := Lower(Suffix(path));
    if suffix !in {".xlsx", ".xls", ".csv", ".jsonl"} {
      return Err(Unsupported(suffix));
    }
    if EmptyFrame(f) {
      return Ok([]);
    }
    var cols := f.columns;
    var idCol := PickColumn(cols, IdColumnCandidates);
    var textCol := PickColumn(cols, TextColumnCandidates);
    if textCol.None? {
      return Err(NoTextColumn(cols));
    }
    var out := RecordsOfTable(f, idCol, textCol.value);
    return Ok(out);
  }

  /** Without an id column the ids are the row numbers "0", "1", …, all
      distinct, and a missing text is read as "". */
  lemma GeneratedIds(f: Frame, textCol: string, r1: nat, r2: nat)
    requires WellFormed(f) && textCol in f.columns && r1 < |f.rows| && r2 < |f.rows|
    ensures TableRecords(f, None, textCol)[r1].id == NatToString(r1)
    ensures r1 != r2 ==> TableRecords(f, None, textCol)[r1].id != TableRecords(f, None, textCol)[r2].id
    ensures IsNa(f.rows[r1][ColumnIndex(f.columns, textCol)]) ==> TableRecords(f, None, textCol)[r1].text == ""
  {
    if r1 != r2 && NatToString(r1) == NatToString(r2) {
      NatToStringInjective(r1, r2);
    }
  }
}

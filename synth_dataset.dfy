/** The labelled synthetic dataset (src/models/make_synth_dataset.py): fake
    personal data appended to real texts, one labelled row per record. The
    random choices are inputs. */
module SynthDataset {
  import opened Wrappers
  import opened Strings
  import opened Schemas
  import opened RegexFeatures

  /** The kinds of personal data that can be injected, in the order of the
      population they are sampled from. */
  datatype PiiKind = Email | Cpf | Phone | Rg | Addr | Name

  /** The name of a kind, as written into `injected_types`. */
  function KindName(k: PiiKind): string
  {
    match k
    case Email => "email"
    case Cpf => "cpf"
    case Phone => "phone"
    case Rg => "rg"
    case Addr => "addr"
    case Name => "name"
  }

  /** The label that starts an injected line of a kind. */
  function Prefix(k: PiiKind): string
  {
    match k
    case Email => "E-mail: "
    case Cpf => "CPF: "
    case Phone => "Telefone: "
    case Rg => "RG: "
    case Addr => "Endereço: "
    case Name => "Nome: "
  }

  const SynthEmails: seq<string> := ["maria.silva@email.com", "joao.souza@exemplo.com", "ana.pereira@dominio.org"]
  const SynthCpfs: seq<string> := ["123.456.789-10", "98765432100", "111.222.333-44"]
  const SynthPhones: seq<string> := ["(61) 91234-5678", "+55 61 3456-7890", "61987654321"]
  const SynthRgs: seq<string> := ["12.345.678-9", "1.234.567-X"]
  const SynthAddrs: seq<string> := ["Rua das Flores, 123", "Av. Central, 1000", "Quadra 10 Conjunto B"]
  const SynthNames: seq<string> := ["Maria Silva", "João Souza", "Ana Pereira", "Carlos Oliveira"]

  /** The fake values of a kind. */
  function Values(k: PiiKind): seq<string>
  {
    match k
    case Email => SynthEmails
    case Cpf => SynthCpfs
    case Phone => SynthPhones
    case Rg => SynthRgs
    case Addr => SynthAddrs
    case Name => SynthNames
  }

  /** The list `k` is drawn from: one or two kinds twice as often as three. */
  const CountChoices: seq<nat> := [1, 1, 2, 2, 3]

  /** The random choices of one injection: the position drawn from
      `CountChoices`, the sampled kinds in sample order, and the position of
      the value drawn for each kind. */
  datatype Draw = Draw(countPick: nat, types: seq<PiiKind>, picks: seq<nat>)

  /** What `random` can produce: a count from the list, that many distinct
      kinds (a sample without replacement), one value position per kind
      within that kind's list. */
  predicate ValidDraw(d: Draw)
  {
    d.countPick < |CountChoices|
    && |d.types| == CountChoices[d.countPick]
    && (forall i, j :: 0 <= i < j < |d.types| ==> d.types[i] != d.types[j])
    && |d.picks| == |d.types|
    && (forall i :: 0 <= i < |d.types| ==> d.picks[i] < |Values(d.types[i])|)
  }

  /** One injected line: the kind's label, then the drawn value. */
  function Injection(k: PiiKind, pick: nat): (line: string)
    requires pick < |Values(k)|
  {
    Prefix(k) + Values(k)[pick]
  }

  /** The injected lines of a draw, one per sampled kind, in sample order. */
  function InjectionLines(d: Draw): (lines: seq<string>)
    requires ValidDraw(d)
    ensures |lines| == |d.types|
    ensures forall i :: 0 <= i < |d.types| ==>
      StartsWith(lines[i], Prefix(d.types[i])) && lines[i][|Prefix(d.types[i])|..] in Values(d.types[i])
  {
    seq(|d.types|, i requires 0 <= i < |d.types| => Injection(d.types[i], d.picks[i]))
  }

  /** The text after injection: the original, a newline, the injected lines
      joined by newlines. */
  function InjectedText(text: string, d: Draw): string
    requires ValidDraw(d)
  {
    text + "\n" + Join(InjectionLines(d), "\n")
  }

  /** `inject_pii`: the loop over the sampled kinds appending one line each,
      then the new text and its metadata (the kinds and how many). */
  method InjectPii(text: string, d: Draw) returns (newText: string, injectedTypes: seq<PiiKind>, injectedCount: nat)
    requires ValidDraw(d)
    ensures newText == InjectedText(text, d)
    ensures injectedTypes == d.types
    ensures injectedCount == |injectedTypes| && 1 <= injectedCount <= 3
  {
    ghost var lines := InjectionLines(d);
    var injections: seq<string> := [];
    for i := 0 to |d.types|
      invariant injections == lines[..i]
    {
      assert lines[i] == Injection(d.types[i], d.picks[i]);
      assert lines[..i + 1] == lines[..i] + [lines[i]];
      injections := injections + [Injection(d.types[i], d.picks[i])];
    }
    assert injections == lines;
    newText := text + "\n" + Join(injections, "\n");
    injectedTypes := d.types;
    injectedCount := |d.types|;
  }

  /** A list of strings none of which holds a newline. */
  predicate NoNewlines(vs: seq<string>)
  {
    forall i :: 0 <= i < |vs| ==> '\n' !in vs[i]
  }

  lemma EmailsHaveNoNewline() ensures NoNewlines(SynthEmails) {}
  lemma CpfsHaveNoNewline() ensures NoNewlines(SynthCpfs) {}
  lemma PhonesHaveNoNewline() ensures NoNewlines(SynthPhones) {}
  lemma RgsHaveNoNewline() ensures NoNewlines(SynthRgs) {}
  lemma AddrsHaveNoNewline() ensures NoNewlines(SynthAddrs) {}
  lemma NamesHaveNoNewline() ensures NoNewlines(SynthNames) {}

  /** No label and no fake value of a kind holds a newline. */
  lemma NoNewlineInKind(k: PiiKind)
    ensures '\n' !in Prefix(k)
    ensures NoNewlines(Values(k))
  {
    match k
    case Email => EmailsHaveNoNewline();
    case Cpf => CpfsHaveNoNewline();
    case Phone => PhonesHaveNoNewline();
    case Rg => RgsHaveNoNewline();
    case Addr => AddrsHaveNoNewline();
    case Name => NamesHaveNoNewline();
  }

  /** So no injected line holds a newline. */
  lemma NoNewlineInLines(d: Draw)
    requires ValidDraw(d)
    ensures forall i :: 0 <= i < |d.types| ==> '\n' !in InjectionLines(d)[i]
  {
    forall i | 0 <= i < |d.types| ensures '\n' !in InjectionLines(d)[i] {
      NoNewlineInKind(d.types[i]);
      assert InjectionLines(d)[i] == Prefix(d.types[i]) + Values(d.types[i])[d.picks[i]];
    }
  }

  /** The injected text keeps the original as a prefix, and what follows its
      newline splits back into exactly the injected lines: one per sampled
      kind, in sample order, each the kind's label and one of its values. */
  lemma InjectedTextSplits(text: string, d: Draw)
    requires ValidDraw(d)
    ensures |InjectedText(text, d)| > |text|
    ensures InjectedText(text, d)[..|text|] == text && InjectedText(text, d)[|text|] == '\n'
    ensures Split(InjectedText(text, d)[|text| + 1..], '\n') == InjectionLines(d)
  {
    var t := InjectedText(text, d);
    assert t[|text| + 1..] == Join(InjectionLines(d), "\n");
    NoNewlineInLines(d);
    SplitJoin(InjectionLines(d), '\n');
  }

  /** One row of the synthetic dataset. */
  datatype SynthRow = SynthRow(
    id: string, text: string, trueLabel: int, injectedCount: nat, injectedTypes: string,
    hasCpf: bool, hasEmail: bool, hasPhone: bool, hasRg: bool, hasZip: bool)

  /** The names of the injected kinds, comma-separated. */
  function TypesString(types: seq<PiiKind>): string
  {
    Join(seq(|types|, i requires 0 <= i < |types| => KindName(types[i])), ",")
  }

  /** The `injected_types` cell splits back at its commas into the names of
      the injected kinds, in sample order. */
  lemma TypesStringSplits(types: seq<PiiKind>)
    requires |types| >= 1
    ensures Split(TypesString(types), ',') == seq(|types|, i requires 0 <= i < |types| => KindName(types[i]))
  {
    var names := seq(|types|, i requires 0 <= i < |types| => KindName(types[i]));
    forall i | 0 <= i < |names| ensures ',' !in names[i] {
      match types[i]
      case Email => assert names[i] == "email";
      case Cpf => assert names[i] == "cpf";
      case Phone => assert names[i] == "phone";
      case Rg => assert names[i] == "rg";
      case Addr => assert names[i] == "addr";
      case Name => assert names[i] == "name";
    }
    SplitJoin(names, ',');
  }

  /** The row of a record: injected with `draw` when one is given, kept
      unchanged otherwise, with the signals of the resulting text. */
  function SynthRowOf(rec: Record, draw: Option<Draw>): (row: SynthRow)
    requires draw.Some? ==> ValidDraw(draw.value)
    ensures row.id == rec.id
    ensures row.trueLabel == 1 <==> draw.Some?
    ensures row.trueLabel == 0 <==> draw.None?
  {
    var text := if draw.Some? then InjectedText(rec.text, draw.value) else rec.text;
    var count := if draw.Some? then |draw.value.types| else 0;
    var types := if draw.Some? then TypesString(draw.value.types) else "";
    var s := Detect(text);
    SynthRow(rec.id, text, if draw.Some? then 1 else 0, count, types, s.hasCpf, s.hasEmail, s.hasPhone, s.hasRg, s.hasZip)
  }

  /** A row is labelled 1 exactly when its record was injected. An injected
      row holds the injected text, between one and three injected kinds and
      their names; a row left alone keeps its text, with count 0 and no
      types. Either way the id is the record's and the flags are the signals
      of the row's own text. */
  lemma SynthRowFacts(rec: Record, draw: Option<Draw>)
    requires draw.Some? ==> ValidDraw(draw.value)
    ensures var row := SynthRowOf(rec, draw);
      row.id == rec.id
      && (row.trueLabel == 1 <==> draw.Some?) && (row.trueLabel == 0 <==> draw.None?)
      && (draw.None? ==> row.text == rec.text && row.injectedCount == 0 && row.injectedTypes == "")
      && (draw.Some? ==>
            row.text == InjectedText(rec.text, draw.value) && row.injectedCount == |draw.value.types|
            && 1 <= row.injectedCount <= 3 && row.injectedTypes == TypesString(draw.value.types))
      && row.hasCpf == Detect(row.text).hasCpf && row.hasEmail == Detect(row.text).hasEmail
      && row.hasPhone == Detect(row.text).hasPhone && row.hasRg == Detect(row.text).hasRg
      && row.hasZip == Detect(row.text).hasZip
  {
  }

  /** The body of the dataset loop for one record. */
  method MakeRow(rec: Record, draw: Option<Draw>) returns (row: SynthRow)
    requires draw.Some? ==> ValidDraw(draw.value)
    ensures row == SynthRowOf(rec, draw)
  {
    var text2: string;
    var count: nat;
    var types: seq<PiiKind>;
    var y: int;
    if draw.Some? {
      text2, types, count := InjectPii(rec.text, draw.value);
      y := 1;
    } else {
      text2, types, count := rec.text, [], 0;
      y := 0;
    }
    var sig := Detect(text2);
    row := SynthRow(rec.id, text2, y, count, TypesString(types),
                    sig.hasCpf, sig.hasEmail, sig.hasPhone, sig.hasRg, sig.hasZip);
  }

  /** Why no dataset is produced. */
  datatype SynthError = EmptyDataset

  /** The dataset loop: an empty input is rejected before any row is built;
      otherwise one row per record, in order, each injected or not as its
      draw says. */
  method MakeSynthDataset(records: seq<Record>, draws: seq<Option<Draw>>)
    returns (result: Result<seq<SynthRow>, SynthError>)
    requires |draws| == |records|
    requires forall i :: 0 <= i < |draws| && draws[i].Some? ==> ValidDraw(draws[i].value)
    ensures result.Err? <==> records == []
    ensures result.Ok? ==> |result.value| == |records|
    ensures result.Ok? ==> forall i :: 0 <= i < |records| ==> result.value[i] == SynthRowOf(records[i], draws[i])
  {
    if records == [] {
      return Err(EmptyDataset);
    }
    var rows: seq<SynthRow> := [];
    for i := 0 to |records|
      invariant |rows| == i
      invariant forall k :: 0 <= k < i ==> rows[k] == SynthRowOf(records[k], draws[k])
    {
      var row := MakeRow(records[i], draws[i]);
      rows := rows + [row];
    }
    return Ok(rows);
  }
}

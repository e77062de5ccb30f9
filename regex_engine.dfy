/** A small backtracking matcher for the fixed patterns of the PII detector.

    A pattern is a sequence of items: a greedy counted repetition of one
    character class (`\d{3}`, `\.?`, `[a-z]+`), the word boundary `\b`, or a
    non-capturing group `(?:A|B)` / `(?:A)?` whose alternatives are flat
    sequences of atoms. Matching follows the order in which Python's `re`
    explores a pattern: a repetition first takes as many characters as it can
    and gives them back one at a time, alternatives are tried left to right, an
    optional group is tried before it is skipped. The first success in that
    order is the match at a start position, which fixes where a `findall`
    resumes. */
module Regex {
  import opened Wrappers
  import Strings

  datatype Bound = Finite(n: nat) | Unbounded

  /** The character classes used by the six patterns. */
  datatype Class =
    | Digit          // \d  (ASCII digits)
    | Lit(c: char)   // one literal character
    | DigitOrX       // [0-9Xx]
    | EmailLocal     // [A-Z0-9._%+-] under IGNORECASE
    | EmailDomain    // [A-Z0-9.-] under IGNORECASE
    | Letter         // [A-Z] under IGNORECASE
    | Space          // \s
    | Upper          // [A-Z] (the accented capitals of the source are not reproduced)
    | LowerLetter    // [a-z] (the accented small letters of the source are not reproduced)

  datatype Atom = Rep(cls: Class, lo: nat, hi: Bound) | Boundary

  datatype Item = One(atom: Atom) | Group(alts: seq<seq<Atom>>, optional: bool)

  predicate IsAsciiDigit(c: char) { '0' <= c <= '9' }

  predicate IsAsciiLetter(c: char) { ('A' <= c <= 'Z') || ('a' <= c <= 'z') }

  predicate InClass(cls: Class, c: char)
  {
    match cls
    case Digit => IsAsciiDigit(c)
    case Lit(x) => c == x
    case DigitOrX => IsAsciiDigit(c) || c == 'X' || c == 'x'
    case EmailLocal => IsAsciiLetter(c) || IsAsciiDigit(c) || c in "._%+-"
    case EmailDomain => IsAsciiLetter(c) || IsAsciiDigit(c) || c in ".-"
    case Letter => IsAsciiLetter(c)
    case Space => Strings.IsSpace(c)
    case Upper => 'A' <= c <= 'Z'
    case LowerLetter => 'a' <= c <= 'z'
  }

  /** `\w`: letters, digits and `_`, over the Latin-1 range. */
  predicate IsWordChar(c: char)
  {
    IsAsciiLetter(c) || IsAsciiDigit(c) || c == '_'
    || c == '\U{AA}' || c == '\U{B2}' || c == '\U{B3}' || c == '\U{B5}' || c == '\U{B9}' || c == '\U{BA}'
    || ('\U{BC}' <= c <= '\U{BE}') || ('\U{C0}' <= c <= '\U{FF}' && c != '\U{D7}' && c != '\U{F7}')
  }

  /** `\b` at position i: a word character on exactly one side. */
  predicate AtBoundary(text: string, i: nat)
    requires i <= |text|
  {
    (i > 0 && IsWordChar(text[i - 1])) != (i < |text| && IsWordChar(text[i]))
  }

  /** How many characters of class cls follow position i. */
  function RunLength(cls: Class, text: string, i: nat): (n: nat)
    requires i <= |text|
    ensures i + n <= |text|
    ensures forall k :: i <= k < i + n ==> InClass(cls, text[k])
    ensures i + n < |text| ==> !InClass(cls, text[i + n])
    decreases |text| - i
  {
    if i < |text| && InClass(cls, text[i]) then 1 + RunLength(cls, text, i + 1) else 0
  }

  function Cap(n: nat, hi: Bound): (c: nat)
    ensures c <= n
    ensures hi.Finite? ==> c <= hi.n
    ensures c == n || (hi.Finite? && c == hi.n)
  {
    if hi.Finite? && hi.n < n then hi.n else n
  }

  function Lift(alt: seq<Atom>): (items: seq<Item>)
    ensures |items| == |alt|
    ensures forall k :: 0 <= k < |alt| ==> items[k] == One(alt[k])
  {
    seq(|alt|, k requires 0 <= k < |alt| => One(alt[k]))
  }

  /** A size that every matching step makes smaller (the termination measure). */
  function ItemSize(it: Item): nat
  {
    match it
    case One(_) => 1
    case Group(alts, _) => 1 + AltsSize(alts)
  }

  function Size(items: seq<Item>): nat
  {
    if items == [] then 0 else ItemSize(items[0]) + Size(items[1..])
  }

  function AltsSize(alts: seq<seq<Atom>>): nat
  {
    if alts == [] then 0 else |alts[0]| + AltsSize(alts[1..])
  }

  lemma {:induction false} SizeLift(alt: seq<Atom>, rest: seq<Item>)
    ensures Size(Lift(alt) + rest) == |alt| + Size(rest)
  {
    if alt != [] {
      assert (Lift(alt) + rest)[1..] == Lift(alt[1..]) + rest;
      SizeLift(alt[1..], rest);
    } else {
      assert Lift(alt) + rest == rest;
    }
  }

  /** The end of the first match, in backtracking order, of items at position i. */
  function MatchFrom(items: seq<Item>, text: string, i: nat): (r: Option<nat>)
    requires i <= |text|
    ensures r.Some? ==> i <= r.value <= |text|
    decreases Size(items), 1, 0
  {
    if items == [] then Some(i)
    else
      match items[0]
      case One(Boundary) =>
        if AtBoundary(text, i) then MatchFrom(items[1..], text, i) else None
      case One(Rep(cls, lo, hi)) =>
        var avail := Cap(RunLength(cls, text, i), hi);
        if avail < lo then None else TryCounts(items[1..], text, i, avail, lo)
      case Group(alts, optional) =>
        TryAlts(alts, optional, items[1..], text, i)
  }

  /** A greedy repetition: c characters first, then c - 1, down to lo. */
  function TryCounts(rest: seq<Item>, text: string, i: nat, c: nat, lo: nat): (r: Option<nat>)
    requires i + c <= |text| && lo <= c
    ensures r.Some? ==> i <= r.value <= |text|
    decreases Size(rest) + 1, 0, c
  {
    match MatchFrom(rest, text, i + c)
    case Some(e) => Some(e)
    case None => if c == lo then None else TryCounts(rest, text, i, c - 1, lo)
  }

  /** A group: each alternative in turn, then (if optional) nothing. */
  function TryAlts(alts: seq<seq<Atom>>, optional: bool, rest: seq<Item>, text: string, i: nat): (r: Option<nat>)
    requires i <= |text|
    ensures r.Some? ==> i <= r.value <= |text|
    decreases AltsSize(alts) + Size(rest) + 1, 0, |alts|
  {
    if alts == [] then
      if optional then MatchFrom(rest, text, i) else None
    else
      SizeLift(alts[0], rest);
      match MatchFrom(Lift(alts[0]) + rest, text, i)
      case Some(e) => Some(e)
      case None => TryAlts(alts[1..], optional, rest, text, i)
  }

  /** `re.search` from position from: the leftmost start where the pattern
      matches, with the end of that match. */
  function Search(items: seq<Item>, text: string, from: nat): (r: Option<(nat, nat)>)
    ensures r.Some? ==> from <= r.value.0 <= r.value.1 <= |text|
    ensures r.Some? ==> MatchFrom(items, text, r.value.0) == Some(r.value.1)
    ensures r.Some? ==> forall j :: from <= j < r.value.0 ==> MatchFrom(items, text, j).None?
    ensures r.None? ==> forall j :: from <= j <= |text| ==> MatchFrom(items, text, j).None?
    decreases |text| + 1 - from
  {
    if from > |text| then None
    else
      match MatchFrom(items, text, from)
      case Some(e) => Some((from, e))
      case None => Search(items, text, from + 1)
  }

  /** `bool(p.search(text))`. */
  predicate Matches(items: seq<Item>, text: string)
  {
    Search(items, text, 0).Some?
  }

  /** `len(p.findall(text[from:]))` with the boundary context of the whole text:
      each match resumes the scan at its end. (None of the six patterns can
      match the empty string, so the step past an empty match never happens.) */
  function CountFrom(items: seq<Item>, text: string, from: nat): (n: nat)
    ensures n > 0 <==> Search(items, text, from).Some?
    decreases |text| + 1 - from
  {
    match Search(items, text, from)
    case None => 0
    case Some((s, e)) => 1 + CountFrom(items, text, if e > s then e else s + 1)
  }

  function Count(items: seq<Item>, text: string): nat
  {
    CountFrom(items, text, 0)
  }

  /** A search succeeds exactly when the pattern matches at some position. */
  lemma MatchesIffSomeStart(items: seq<Item>, text: string)
    ensures Matches(items, text) <==> exists i :: 0 <= i <= |text| && MatchFrom(items, text, i).Some?
  {
    var r := Search(items, text, 0);
    if r.Some? {
      assert MatchFrom(items, text, r.value.0).Some?;
    } else {
      assert forall j :: 0 <= j <= |text| ==> MatchFrom(items, text, j).None?;
    }
  }

  /** Presence and count agree: a pattern is present iff it is found at least once. */
  lemma MatchesIffCounted(items: seq<Item>, text: string)
    ensures Matches(items, text) <==> Count(items, text) > 0
  {
  }

  /** Every character of text[i..j] is in class cls. */
  predicate AllIn(cls: Class, text: string, i: nat, j: nat)
    requires i <= j <= |text|
  {
    forall k :: i <= k < j ==> InClass(cls, text[k])
  }

  /** What it means for items to match text[i..e], with no search order: a
      repetition takes any admissible number of characters of its class, a
      group any one of its alternatives, or nothing when it is optional. */
  predicate Spans(items: seq<Item>, text: string, i: nat, e: nat)
    requires i <= |text|
    decreases Size(items), 1, 0
  {
    if items == [] then e == i
    else
      match items[0]
      case One(Boundary) => AtBoundary(text, i) && Spans(items[1..], text, i, e)
      case One(Rep(cls, lo, hi)) =>
        exists j :: i + lo <= j <= |text| && (hi.Finite? ==> j <= i + hi.n) && AllIn(cls, text, i, j)
                    && Spans(items[1..], text, j, e)
      case Group(alts, optional) => AltsSpan(alts, optional, items[1..], text, i, e)
  }

  /** Some alternative followed by rest matches text[i..e], or the group is
      optional and rest alone does. */
  predicate AltsSpan(alts: seq<seq<Atom>>, optional: bool, rest: seq<Item>, text: string, i: nat, e: nat)
    requires i <= |text|
    decreases AltsSize(alts) + Size(rest) + 1, 0, |alts|
  {
    if alts == [] then optional && Spans(rest, text, i, e)
    else
      SizeLift(alts[0], rest);
      Spans(Lift(alts[0]) + rest, text, i, e) || AltsSpan(alts[1..], optional, rest, text, i, e)
  }

  lemma {:induction false} MatchFromSound(items: seq<Item>, text: string, i: nat)
    requires i <= |text|
    ensures MatchFrom(items, text, i).Some? ==> Spans(items, text, i, MatchFrom(items, text, i).value)
    decreases Size(items), 1, 0
  {
    if items != [] {
      match items[0]
      case One(Boundary) =>
        MatchFromSound(items[1..], text, i);
      case One(Rep(cls, lo, hi)) =>
        var avail := Cap(RunLength(cls, text, i), hi);
        if avail >= lo && MatchFrom(items, text, i).Some? {
          var e := MatchFrom(items, text, i).value;
          TryCountsSound(items[1..], text, i, avail, lo);
          var j :| i + lo <= j <= i + avail && Spans(items[1..], text, j, e);
          assert AllIn(cls, text, i, j);
        }
      case Group(alts, optional) =>
        TryAltsSound(alts, optional, items[1..], text, i);
    }
  }

  lemma {:induction false} TryCountsSound(rest: seq<Item>, text: string, i: nat, c: nat, lo: nat)
    requires i + c <= |text| && lo <= c
    ensures TryCounts(rest, text, i, c, lo).Some? ==>
      exists j :: i + lo <= j <= i + c && Spans(rest, text, j, TryCounts(rest, text, i, c, lo).value)
    decreases Size(rest) + 1, 0, c
  {
    MatchFromSound(rest, text, i + c);
    if MatchFrom(rest, text, i + c).None? && c > lo {
      TryCountsSound(rest, text, i, c - 1, lo);
    }
  }

  lemma {:induction false} TryAltsSound(alts: seq<seq<Atom>>, optional: bool, rest: seq<Item>, text: string, i: nat)
    requires i <= |text|
    ensures TryAlts(alts, optional, rest, text, i).Some? ==>
      AltsSpan(alts, optional, rest, text, i, TryAlts(alts, optional, rest, text, i).value)
    decreases AltsSize(alts) + Size(rest) + 1, 0, |alts|
  {
    if alts == [] {
      MatchFromSound(rest, text, i);
    } else {
      SizeLift(alts[0], rest);
      MatchFromSound(Lift(alts[0]) + rest, text, i);
      TryAltsSound(alts[1..], optional, rest, text, i);
    }
  }

  /** No run of class characters starting at i is longer than RunLength. */
  lemma {:induction false} RunLengthMaximal(cls: Class, text: string, i: nat, j: nat)
    requires i <= j <= |text| && AllIn(cls, text, i, j)
    ensures j <= i + RunLength(cls, text, i)
    decreases j - i
  {
    if i < j {
      RunLengthMaximal(cls, text, i + 1, j);
    }
  }

  lemma {:induction false} MatchFromComplete(items: seq<Item>, text: string, i: nat, e: nat)
    requires i <= |text| && Spans(items, text, i, e)
    ensures MatchFrom(items, text, i).Some?
    decreases Size(items), 1, 0
  {
    if items != [] {
      match items[0]
      case One(Boundary) =>
        MatchFromComplete(items[1..], text, i, e);
      case One(Rep(cls, lo, hi)) =>
        var j :| i + lo <= j <= |text| && (hi.Finite? ==> j <= i + hi.n) && AllIn(cls, text, i, j)
                 && Spans(items[1..], text, j, e);
        var n := RunLength(cls, text, i);
        RunLengthMaximal(cls, text, i, j);
        TryCountsComplete(items[1..], text, i, Cap(n, hi), lo, j, e);
      case Group(alts, optional) =>
        TryAltsComplete(alts, optional, items[1..], text, i, e);
    }
  }

  lemma {:induction false} TryCountsComplete(rest: seq<Item>, text: string, i: nat, c: nat, lo: nat, j: nat, e: nat)
    requires i + c <= |text| && lo <= c
    requires i + lo <= j <= i + c && Spans(rest, text, j, e)
    ensures TryCounts(rest, text, i, c, lo).Some?
    decreases Size(rest) + 1, 0, c
  {
    if j == i + c {
      MatchFromComplete(rest, text, j, e);
    } else {
      TryCountsComplete(rest, text, i, c - 1, lo, j, e);
    }
  }

  lemma {:induction false} TryAltsComplete(alts: seq<seq<Atom>>, optional: bool, rest: seq<Item>, text: string, i: nat, e: nat)
    requires i <= |text| && AltsSpan(alts, optional, rest, text, i, e)
    ensures TryAlts(alts, optional, rest, text, i).Some?
    decreases AltsSize(alts) + Size(rest) + 1, 0, |alts|
  {
    if alts == [] {
      MatchFromComplete(rest, text, i, e);
    } else {
      SizeLift(alts[0], rest);
      if Spans(Lift(alts[0]) + rest, text, i, e) {
        MatchFromComplete(Lift(alts[0]) + rest, text, i, e);
      } else {
        TryAltsComplete(alts[1..], optional, rest, text, i, e);
      }
    }
  }

  /** The backtracking matcher decides the matching relation: it finds a match
      at i exactly when the items can match some text[i..e], and the end it
      reports is the end of one such match. */
  lemma MatchFromCorrect(items: seq<Item>, text: string, i: nat)
    requires i <= |text|
    ensures MatchFrom(items, text, i).Some? ==> Spans(items, text, i, MatchFrom(items, text, i).value)
    ensures MatchFrom(items, text, i).Some? <==> exists e :: Spans(items, text, i, e)
  {
    MatchFromSound(items, text, i);
    if MatchFrom(items, text, i).Some? {
      assert Spans(items, text, i, MatchFrom(items, text, i).value);
    }
    if e :| Spans(items, text, i, e) {
      MatchFromComplete(items, text, i, e);
    }
  }

  /** `search` succeeds exactly when the items match some stretch of the text. */
  lemma MatchesIffSpans(items: seq<Item>, text: string)
    ensures Matches(items, text) <==> exists i, e :: 0 <= i <= |text| && Spans(items, text, i, e)
  {
    MatchesIffSomeStart(items, text);
    if Matches(items, text) {
      var i :| 0 <= i <= |text| && MatchFrom(items, text, i).Some?;
      MatchFromCorrect(items, text, i);
    }
    if i, e :| 0 <= i <= |text| && Spans(items, text, i, e) {
      MatchFromComplete(items, text, i, e);
    }
  }

  /** Some item outside any group must take at least one character. */
  predicate Consumes(items: seq<Item>)
  {
    exists k :: 0 <= k < |items| && items[k].One? && items[k].atom.Rep? && items[k].atom.lo >= 1
  }

  lemma {:induction false} SpansForward(items: seq<Item>, text: string, i: nat, e: nat)
    requires i <= |text| && Spans(items, text, i, e)
    ensures i <= e <= |text|
    ensures Consumes(items) ==> i < e
    decreases Size(items), 1, 0
  {
    if items != [] {
      assert Consumes(items) && !(items[0].One? && items[0].atom.Rep? && items[0].atom.lo >= 1) ==> Consumes(items[1..]) by {
        if Consumes(items) && !(items[0].One? && items[0].atom.Rep? && items[0].atom.lo >= 1) {
          var k :| 0 <= k < |items| && items[k].One? && items[k].atom.Rep? && items[k].atom.lo >= 1;
          assert items[1..][k - 1] == items[k];
        }
      }
      match items[0]
      case One(Boundary) =>
        SpansForward(items[1..], text, i, e);
      case One(Rep(cls, lo, hi)) =>
        var j :| i + lo <= j <= |text| && (hi.Finite? ==> j <= i + hi.n) && AllIn(cls, text, i, j)
                 && Spans(items[1..], text, j, e);
        SpansForward(items[1..], text, j, e);
      case Group(alts, optional) =>
        AltsSpanForward(alts, optional, items[1..], text, i, e);
    }
  }

  lemma {:induction false} AltsSpanForward(alts: seq<seq<Atom>>, optional: bool, rest: seq<Item>, text: string, i: nat, e: nat)
    requires i <= |text| && AltsSpan(alts, optional, rest, text, i, e)
    ensures i <= e <= |text|
    ensures Consumes(rest) ==> i < e
    decreases AltsSize(alts) + Size(rest) + 1, 0, |alts|
  {
    if alts == [] {
      SpansForward(rest, text, i, e);
    } else {
      SizeLift(alts[0], rest);
      if Spans(Lift(alts[0]) + rest, text, i, e) {
        var items := Lift(alts[0]) + rest;
        if Consumes(rest) {
          var k :| 0 <= k < |rest| && rest[k].One? && rest[k].atom.Rep? && rest[k].atom.lo >= 1;
          assert items[|alts[0]| + k] == rest[k];
        }
        SpansForward(items, text, i, e);
      } else {
        AltsSpanForward(alts[1..], optional, rest, text, i, e);
      }
    }
  }

  /** Items that must take a character never match the empty string, so a
      `findall` over them always resumes past the end of its last match. */
  lemma MatchesAreNonEmpty(items: seq<Item>, text: string, i: nat)
    requires i <= |text| && Consumes(items)
    ensures MatchFrom(items, text, i).Some? ==> MatchFrom(items, text, i).value > i
  {
    if MatchFrom(items, text, i).Some? {
      MatchFromSound(items, text, i);
      SpansForward(items, text, i, MatchFrom(items, text, i).value);
    }
  }
}

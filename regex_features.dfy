/** Signal extraction and the additive regex score (src/features/regex_features.py). */
module RegexFeatures {
  import opened Regex
  import opened Wrappers
  import Strings

  /** `[A-Z0-9._%+-]+@[A-Z0-9.-]+\.[A-Z]{2,}`, case-insensitive. */
  const EmailPattern: seq<Item> := [
    One(Rep(EmailLocal, 1, Unbounded)), One(Rep(Lit('@'), 1, Finite(1))),
    One(Rep(EmailDomain, 1, Unbounded)), One(Rep(Lit('.'), 1, Finite(1))),
    One(Rep(Letter, 2, Unbounded))]

  /** `\b\d{3}\.?\d{3}\.?\d{3}-?\d{2}\b`: the shape of a CPF, with no check digits. */
  const CpfPattern: seq<Item> := [
    One(Boundary),
    One(Rep(Digit, 3, Finite(3))), One(Rep(Lit('.'), 0, Finite(1))),
    One(Rep(Digit, 3, Finite(3))), One(Rep(Lit('.'), 0, Finite(1))),
    One(Rep(Digit, 3, Finite(3))), One(Rep(Lit('-'), 0, Finite(1))),
    One(Rep(Digit, 2, Finite(2))),
    One(Boundary)]

  /** `\b(?:\+?55\s*)?(?:\(?\d{2}\)?\s*)?(?:9\d{4}|\d{4})-?\d{4}\b`. */
  const PhonePattern: seq<Item> := [
    One(Boundary),
    Group([[Rep(Lit('+'), 0, Finite(1)), Rep(Lit('5'), 2, Finite(2)), Rep(Space, 0, Unbounded)]], true),
    Group([[Rep(Lit('('), 0, Finite(1)), Rep(Digit, 2, Finite(2)), Rep(Lit(')'), 0, Finite(1)),
            Rep(Space, 0, Unbounded)]], true),
    Group([[Rep(Lit('9'), 1, Finite(1)), Rep(Digit, 4, Finite(4))], [Rep(Digit, 4, Finite(4))]], false),
    One(Rep(Lit('-'), 0, Finite(1))), One(Rep(Digit, 4, Finite(4))),
    One(Boundary)]

  /** `\b\d{1,2}\.?\d{3}\.?\d{3}-?[0-9Xx]\b`. */
  const RgPattern: seq<Item> := [
    One(Boundary),
    One(Rep(Digit, 1, Finite(2))), One(Rep(Lit('.'), 0, Finite(1))),
    One(Rep(Digit, 3, Finite(3))), One(Rep(Lit('.'), 0, Finite(1))),
    One(Rep(Digit, 3, Finite(3))), One(Rep(Lit('-'), 0, Finite(1))),
    One(Rep(DigitOrX, 1, Finite(1))),
    One(Boundary)]

  /** `\b\d{5}-?\d{3}\b`. */
  const ZipPattern: seq<Item> := [
    One(Boundary), One(Rep(Digit, 5, Finite(5))), One(Rep(Lit('-'), 0, Finite(1))),
    One(Rep(Digit, 3, Finite(3))), One(Boundary)]

  /** Two capitalised words: `\b[A-Z][a-z]+\s+[A-Z][a-z]+\b` (ASCII letters only). */
  const NamePattern: seq<Item> := [
    One(Boundary), One(Rep(Upper, 1, Finite(1))), One(Rep(LowerLetter, 1, Unbounded)),
    One(Rep(Space, 1, Unbounded)),
    One(Rep(Upper, 1, Finite(1))), One(Rep(LowerLetter, 1, Unbounded)), One(Boundary)]

  /** The signals of one text: six presence flags and the match counts of the
      three patterns that are counted. */
  datatype SignalSet = SignalSet(
    hasEmail: bool, hasCpf: bool, hasPhone: bool, hasRg: bool, hasZip: bool, hasNameLike: bool,
    emailCount: nat, cpfCount: nat, phoneCount: nat)

  /** The signals of a text: each flag says the pattern is found somewhere, each
      count is the number of `findall` matches of the same pattern, so a
      counted flag is set exactly when its count is positive. */
  function Detect(text: string): (s: SignalSet)
    ensures s.hasEmail <==> s.emailCount > 0
    ensures s.hasCpf <==> s.cpfCount > 0
    ensures s.hasPhone <==> s.phoneCount > 0
  {
    MatchesIffCounted(EmailPattern, text);
    MatchesIffCounted(CpfPattern, text);
    MatchesIffCounted(PhonePattern, text);
    SignalSet(
      Matches(EmailPattern, text), Matches(CpfPattern, text), Matches(PhonePattern, text),
      Matches(RgPattern, text), Matches(ZipPattern, text), Matches(NamePattern, text),
      Count(EmailPattern, text), Count(CpfPattern, text), Count(PhonePattern, text))
  }

  /** A value of a signal dictionary: a Python bool or int. */
  datatype Value = Flag(b: bool) | Num(n: int)

  /** A signal dictionary, keyed by the source's signal names. */
  type Signals = map<string, Value>

  /** Python truthiness of a value. */
  predicate Truthy(v: Value)
  {
    match v
    case Flag(b) => b
    case Num(n) => n != 0
  }

  /** `bool(signals.get(key))`: a missing key reads as false. */
  predicate FlagOf(sig: Signals, key: string)
  {
    key in sig && Truthy(sig[key])
  }

  const FlagKeys: set<string> := {"has_email", "has_cpf", "has_phone", "has_rg", "has_zip", "has_name_like"}

  const CountKeys: set<string> := {"email_count", "cpf_count", "phone_count"}

  /** The dictionary form of a signal set, as `regex_signals` returns it: nine
      keys, booleans under the flag names and integers under the count names. */
  function AsDict(s: SignalSet): (sig: Signals)
    ensures sig.Keys == FlagKeys + CountKeys
  {
    map[
      "has_email" := Flag(s.hasEmail), "has_cpf" := Flag(s.hasCpf), "has_phone" := Flag(s.hasPhone),
      "has_rg" := Flag(s.hasRg), "has_zip" := Flag(s.hasZip), "has_name_like" := Flag(s.hasNameLike),
      "email_count" := Num(s.emailCount), "cpf_count" := Num(s.cpfCount), "phone_count" := Num(s.phoneCount)]
  }

  /** `regex_signals(text)`: the nine signals of the text; each flag, read
      with `.get`, says whether its pattern is found, and each count is the
      number of `findall` matches of its pattern. */
  function RegexSignals(text: string): (sig: Signals)
    ensures sig.Keys == FlagKeys + CountKeys
    ensures FlagOf(sig, "has_email") <==> Matches(EmailPattern, text)
    ensures FlagOf(sig, "has_cpf") <==> Matches(CpfPattern, text)
    ensures FlagOf(sig, "has_phone") <==> Matches(PhonePattern, text)
    ensures FlagOf(sig, "has_rg") <==> Matches(RgPattern, text)
    ensures FlagOf(sig, "has_zip") <==> Matches(ZipPattern, text)
    ensures FlagOf(sig, "has_name_like") <==> Matches(NamePattern, text)
    ensures sig["email_count"] == Num(Count(EmailPattern, text))
    ensures sig["cpf_count"] == Num(Count(CpfPattern, text))
    ensures sig["phone_count"] == Num(Count(PhonePattern, text))
  {
    AsDictFlags(Detect(text));
    CountEntries(Detect(text));
    AsDict(Detect(text))
  }

  /** Reading a flag back from the dictionary gives the flag of the signal set. */
  lemma AsDictFlags(s: SignalSet)
    ensures FlagOf(AsDict(s), "has_email") == s.hasEmail
    ensures FlagOf(AsDict(s), "has_cpf") == s.hasCpf
    ensures FlagOf(AsDict(s), "has_phone") == s.hasPhone
    ensures FlagOf(AsDict(s), "has_rg") == s.hasRg
    ensures FlagOf(AsDict(s), "has_zip") == s.hasZip
    ensures FlagOf(AsDict(s), "has_name_like") == s.hasNameLike
  {
  }

  /** Indexing the dictionary of a signal set under a flag name gives that flag. */
  lemma CpfEntry(s: SignalSet)
    ensures "has_cpf" in AsDict(s) && AsDict(s)["has_cpf"] == Flag(s.hasCpf)
  {
  }

  lemma EmailEntry(s: SignalSet)
    ensures "has_email" in AsDict(s) && AsDict(s)["has_email"] == Flag(s.hasEmail)
  {
  }

  lemma PhoneEntry(s: SignalSet)
    ensures "has_phone" in AsDict(s) && AsDict(s)["has_phone"] == Flag(s.hasPhone)
  {
  }

  /** Indexing the dictionary of a signal set under a count name gives that count. */
  lemma CountEntries(s: SignalSet)
    ensures "email_count" in AsDict(s) && AsDict(s)["email_count"] == Num(s.emailCount)
    ensures "cpf_count" in AsDict(s) && AsDict(s)["cpf_count"] == Num(s.cpfCount)
    ensures "phone_count" in AsDict(s) && AsDict(s)["phone_count"] == Num(s.phoneCount)
  {
  }

  /** None of the six patterns can match the empty string: each has a
      repetition outside any group that takes at least one character, so
      every match found by `search` or `findall` is non-empty. */
  lemma PatternsNeverMatchEmpty(text: string, i: nat)
    requires i <= |text|
    ensures forall p :: p in [EmailPattern, CpfPattern, PhonePattern, RgPattern, ZipPattern, NamePattern] ==>
      (MatchFrom(p, text, i).Some? ==> MatchFrom(p, text, i).value > i)
  {
    assert EmailPattern[0].atom.lo >= 1 && Consumes(EmailPattern);
    assert CpfPattern[1].atom.lo >= 1 && Consumes(CpfPattern);
    assert PhonePattern[5].atom.lo >= 1 && Consumes(PhonePattern);
    assert RgPattern[1].atom.lo >= 1 && Consumes(RgPattern);
    assert ZipPattern[1].atom.lo >= 1 && Consumes(ZipPattern);
    assert NamePattern[1].atom.lo >= 1 && Consumes(NamePattern);
    MatchesAreNonEmpty(EmailPattern, text, i);
    MatchesAreNonEmpty(CpfPattern, text, i);
    MatchesAreNonEmpty(PhonePattern, text, i);
    MatchesAreNonEmpty(RgPattern, text, i);
    MatchesAreNonEmpty(ZipPattern, text, i);
    MatchesAreNonEmpty(NamePattern, text, i);
  }

  /** The signal dictionary has exactly nine keys. */
  lemma NineSignalKeys(text: string)
    ensures |RegexSignals(text)| == 9
  {
    assert |FlagKeys + CountKeys| == 9;
  }

  /** The weight table of the score, in the order the source adds them. */
  const Weights: seq<(string, real)> := [
    ("has_cpf", 0.45), ("has_email", 0.35), ("has_phone", 0.25),
    ("has_rg", 0.20), ("has_zip", 0.10), ("has_name_like", 0.05)]

  /** The sum of the weights whose flag is set. */
  function WeightSum(sig: Signals, ws: seq<(string, real)>): real
  {
    if ws == [] then 0.0
    else (if FlagOf(sig, ws[0].0) then ws[0].1 else 0.0) + WeightSum(sig, ws[1..])
  }

  function Min(x: real, y: real): real
  {
    if y < x then y else x
  }

  function Max(x: real, y: real): real
  {
    if y > x then y else x
  }

  /** The regex score: the weight sum, saturated at 1.0 (exact arithmetic). */
  function Score(sig: Signals): real
  {
    Min(WeightSum(sig, Weights), 1.0)
  }

  /** A weight counted when its flag is set. */
  function Weighted(flag: bool, w: real): real
  {
    if flag then w else 0.0
  }

  function W(sig: Signals, key: string, w: real): real
  {
    Weighted(FlagOf(sig, key), w)
  }

  lemma WeightSumUnfolded(sig: Signals)
    ensures WeightSum(sig, Weights)
         == W(sig, "has_cpf", 0.45) + W(sig, "has_email", 0.35) + W(sig, "has_phone", 0.25)
          + W(sig, "has_rg", 0.20) + W(sig, "has_zip", 0.10) + W(sig, "has_name_like", 0.05)
  {
    assert WeightSum(sig, Weights[6..]) == 0.0;
    assert WeightSum(sig, Weights[5..]) == W(sig, "has_name_like", 0.05);
    assert WeightSum(sig, Weights[4..]) == W(sig, "has_zip", 0.10) + WeightSum(sig, Weights[5..]);
    assert WeightSum(sig, Weights[3..]) == W(sig, "has_rg", 0.20) + WeightSum(sig, Weights[4..]);
    assert WeightSum(sig, Weights[2..]) == W(sig, "has_phone", 0.25) + WeightSum(sig, Weights[3..]);
    assert WeightSum(sig, Weights[1..]) == W(sig, "has_email", 0.35) + WeightSum(sig, Weights[2..]);
  }

  /** `regex_score(signals)`: a running score raised by each set flag, then clamped. */
  method RegexScore(sig: Signals) returns (score: real)
    ensures score == Score(sig)
    ensures 0.0 <= score <= 1.0
  {
    score := 0.0;
    if FlagOf(sig, "has_cpf") { score := score + 0.45; }
    if FlagOf(sig, "has_email") { score := score + 0.35; }
    if FlagOf(sig, "has_phone") { score := score + 0.25; }
    if FlagOf(sig, "has_rg") { score := score + 0.20; }
    if FlagOf(sig, "has_zip") { score := score + 0.10; }
    if FlagOf(sig, "has_name_like") { score := score + 0.05; }
    WeightSumUnfolded(sig);
    score := Min(score, 1.0);
  }

  predicate NonNegativeWeights(ws: seq<(string, real)>)
  {
    forall k :: 0 <= k < |ws| ==> ws[k].1 >= 0.0
  }

  lemma {:induction false} WeightSumNonNegative(sig: Signals, ws: seq<(string, real)>)
    requires NonNegativeWeights(ws)
    ensures WeightSum(sig, ws) >= 0.0
  {
    if ws != [] {
      WeightSumNonNegative(sig, ws[1..]);
    }
  }

  /** The score always lies in [0, 1]. */
  lemma ScoreInUnitInterval(sig: Signals)
    ensures 0.0 <= Score(sig) <= 1.0
  {
    WeightSumNonNegative(sig, Weights);
  }

  lemma {:induction false} WeightSumMonotone(s1: Signals, s2: Signals, ws: seq<(string, real)>)
    requires NonNegativeWeights(ws)
    requires forall k :: 0 <= k < |ws| && FlagOf(s1, ws[k].0) ==> FlagOf(s2, ws[k].0)
    ensures WeightSum(s1, ws) <= WeightSum(s2, ws)
  {
    if ws != [] {
      WeightSumMonotone(s1, s2, ws[1..]);
    }
  }

  /** Setting more flags never lowers the score. */
  lemma ScoreMonotone(s1: Signals, s2: Signals)
    requires forall k :: k in FlagKeys && FlagOf(s1, k) ==> FlagOf(s2, k)
    ensures Score(s1) <= Score(s2)
  {
    forall k | 0 <= k < |Weights| && FlagOf(s1, Weights[k].0)
      ensures FlagOf(s2, Weights[k].0)
    {
      assert Weights[k].0 in FlagKeys;
    }
    WeightSumMonotone(s1, s2, Weights);
  }

  /** Turning one flag from false to true never lowers the score. */
  lemma SetFlagNeverLowers(sig: Signals, key: string)
    ensures Score(sig) <= Score(sig[key := Flag(true)])
  {
    ScoreMonotone(sig, sig[key := Flag(true)]);
  }

  lemma {:induction false} WeightSumIgnores(sig: Signals, key: string, v: Value, ws: seq<(string, real)>)
    requires forall k :: 0 <= k < |ws| ==> ws[k].0 != key
    ensures WeightSum(sig[key := v], ws) == WeightSum(sig, ws)
  {
    if ws != [] {
      WeightSumIgnores(sig, key, v, ws[1..]);
    }
  }

  /** Only the six flags are read: the counts (and any other key) never
      influence the score, whatever their value. */
  lemma ScoreIgnoresNonFlags(sig: Signals, key: string, v: Value)
    requires key !in FlagKeys
    ensures Score(sig[key := v]) == Score(sig)
  {
    forall k | 0 <= k < |Weights| ensures Weights[k].0 != key {
      assert Weights[k].0 in FlagKeys;
    }
    WeightSumIgnores(sig, key, v, Weights);
  }

  /** Missing keys count as false: the empty dictionary scores 0. */
  lemma EmptySignalsScoreZero()
    ensures Score(map[]) == 0.0
  {
    WeightSumUnfolded(map[]);
  }

  /** A set of signals whose true flags are exactly `on`. */
  predicate FlagsExactly(sig: Signals, on: set<string>)
  {
    forall k :: k in FlagKeys ==> (FlagOf(sig, k) <==> k in on)
  }

  /** Each weight is exact: an e-mail alone scores 0.35. */
  lemma EmailOnlyScore(sig: Signals)
    requires FlagsExactly(sig, {"has_email"})
    ensures Score(sig) == 0.35
  {
    WeightSumUnfolded(sig);
  }

  /** A CPF alone scores 0.45. */
  lemma CpfOnlyScore(sig: Signals)
    requires FlagsExactly(sig, {"has_cpf"})
    ensures Score(sig) == 0.45
  {
    WeightSumUnfolded(sig);
  }

  /** A CPF with an e-mail scores 0.45 + 0.35 = 0.80. */
  lemma CpfAndEmailScore(sig: Signals)
    requires FlagsExactly(sig, {"has_cpf", "has_email"})
    ensures Score(sig) == 0.80
  {
    WeightSumUnfolded(sig);
  }

  /** The weak signals together: 0.20 + 0.10 + 0.05 = 0.35. */
  lemma WeakSignalsScore(sig: Signals)
    requires FlagsExactly(sig, {"has_rg", "has_zip", "has_name_like"})
    ensures Score(sig) == 0.35
  {
    WeightSumUnfolded(sig);
  }

  /** Saturation: CPF, e-mail and phone sum to 1.05 and score exactly 1.0. */
  lemma CpfEmailPhoneSaturates(sig: Signals)
    requires forall k :: k in {"has_cpf", "has_email", "has_phone"} ==> FlagOf(sig, k)
    ensures Score(sig) == 1.0
  {
    WeightSumUnfolded(sig);
    WeightSumNonNegative(sig, Weights);
  }

  /** All six flags: the raw sum is 1.40 and the score is exactly 1.0. */
  lemma AllFlagsSaturate(sig: Signals)
    requires FlagsExactly(sig, FlagKeys)
    ensures WeightSum(sig, Weights) == 1.40
    ensures Score(sig) == 1.0
  {
    WeightSumUnfolded(sig);
  }

  /** The score of a signal set, read field by field. */
  function SignalScore(s: SignalSet): real
  {
    Min(Weighted(s.hasCpf, 0.45) + Weighted(s.hasEmail, 0.35) + Weighted(s.hasPhone, 0.25)
      + Weighted(s.hasRg, 0.20) + Weighted(s.hasZip, 0.10) + Weighted(s.hasNameLike, 0.05), 1.0)
  }

  /** Scoring the dictionary form of a signal set gives its field-wise score,
      which therefore also lies in [0, 1]. */
  lemma ScoreOfDict(s: SignalSet)
    ensures Score(AsDict(s)) == SignalScore(s)
    ensures 0.0 <= SignalScore(s) <= 1.0
  {
    WeightSumUnfolded(AsDict(s));
    AsDictFlags(s);
  }

  /** The empty text: every flag false, every count 0. */
  lemma EmptyTextNoSignals()
    ensures Detect("") == SignalSet(false, false, false, false, false, false, 0, 0, 0)
  {
    var e: string := "";
    assert !AtBoundary(e, 0);
    assert RunLength(EmailLocal, e, 0) == 0;
    assert MatchFrom(EmailPattern, e, 0).None?;
    assert MatchFrom(CpfPattern, e, 0).None?;
    assert MatchFrom(PhonePattern, e, 0).None?;
    assert MatchFrom(RgPattern, e, 0).None?;
    assert MatchFrom(ZipPattern, e, 0).None?;
    assert MatchFrom(NamePattern, e, 0).None?;
  }

  /** The empty text scores 0. */
  lemma EmptyTextScoresZero()
    ensures Score(RegexSignals("")) == 0.0
  {
    EmptyTextNoSignals();
    ScoreOfDict(Detect(""));
  }

  predicate AllDigits(s: string)
  {
    forall k :: 0 <= k < |s| ==> IsAsciiDigit(s[k])
  }

  lemma DigitRun(s: string, i: nat)
    requires AllDigits(s) && i <= |s|
    ensures RunLength(Digit, s, i) == |s| - i
  {
  }

  /** The CPF pattern checks only the shape: any eleven digits at all (with no
      check-digit test) are a CPF, "00000000000" included. */
  lemma ElevenDigitsAreCpf(s: string)
    requires |s| == 11 && AllDigits(s)
    ensures Matches(CpfPattern, s)
    ensures Detect(s).hasCpf
  {
    var P := CpfPattern;
    DigitRun(s, 0);
    DigitRun(s, 3);
    DigitRun(s, 6);
    DigitRun(s, 9);
    assert MatchFrom(P[9..], s, 11) == Some(11);
    assert MatchFrom(P[8..], s, 11) == Some(11);
    assert MatchFrom(P[7..], s, 9) == Some(11);
    assert RunLength(Lit('-'), s, 9) == 0;
    assert MatchFrom(P[6..], s, 9) == Some(11);
    assert MatchFrom(P[5..], s, 6) == Some(11);
    assert RunLength(Lit('.'), s, 6) == 0;
    assert MatchFrom(P[4..], s, 6) == Some(11);
    assert MatchFrom(P[3..], s, 3) == Some(11);
    assert RunLength(Lit('.'), s, 3) == 0;
    assert MatchFrom(P[2..], s, 3) == Some(11);
    assert MatchFrom(P[1..], s, 0) == Some(11);
    assert MatchFrom(P, s, 0) == Some(11);
    MatchesIffSomeStart(P, s);
  }
}

/** The labelled texts of the supervised scaffold (src/models/train.py):
    each text is kept (label 0) or given one appended line of fake personal
    data (label 1). The random choices are inputs. */
module Train {
  import opened Wrappers
  import opened Strings

  /** The kind of the appended line. */
  datatype Choice = EmailChoice | CpfChoice | PhoneChoice

  const TrainEmails: seq<string> := ["maria.silva@email.com", "joao.souza@exemplo.com"]
  const TrainCpfs: seq<string> := ["123.456.789-10", "98765432100"]
  const TrainPhones: seq<string> := ["(61) 91234-5678", "+55 61 3456-7890"]

  /** The fake values of a kind. */
  function TrainValues(c: Choice): (vs: seq<string>)
    ensures |vs| == 2
  {
    match c
    case EmailChoice => TrainEmails
    case CpfChoice => TrainCpfs
    case PhoneChoice => TrainPhones
  }

  /** The label of the appended line. */
  function Label(c: Choice): string
  {
    match c
    case EmailChoice => "E-mail: "
    case CpfChoice => "CPF: "
    case PhoneChoice => "Telefone: "
  }

  /** `inject_pii`: the text, then a newline, the label of the chosen kind and
      the drawn value. */
  function InjectPii(text: string, c: Choice, pick: nat): (r: string)
    requires pick < |TrainValues(c)|
    ensures |r| > |text| && r[..|text|] == text && r[|text|] == '\n'
    ensures r[|text| + 1..] == Label(c) + TrainValues(c)[pick]
  {
    var line := Label(c) + TrainValues(c)[pick];
    var tail := ['\n'] + line;
    assert tail[1..] == line;
    var r := text + tail;
    assert r[..|text|] == text && r[|text|..] == tail;
    r
  }

  lemma EmailsHaveNoNewline() ensures forall i :: 0 <= i < |TrainEmails| ==> '\n' !in TrainEmails[i] {}
  lemma CpfsHaveNoNewline() ensures forall i :: 0 <= i < |TrainCpfs| ==> '\n' !in TrainCpfs[i] {}
  lemma PhonesHaveNoNewline() ensures forall i :: 0 <= i < |TrainPhones| ==> '\n' !in TrainPhones[i] {}

  /** Exactly one line is appended: after the original text comes a newline,
      and what follows it is a single line made of the chosen kind's label and
      a value of that kind. */
  lemma OneLineAppended(text: string, c: Choice, pick: nat)
    requires pick < |TrainValues(c)|
    ensures var line := InjectPii(text, c, pick)[|text| + 1..];
      Split(line, '\n') == [line] && StartsWith(line, Label(c)) && line[|Label(c)|..] in TrainValues(c)
  {
    var line := InjectPii(text, c, pick)[|text| + 1..];
    match c {
      case EmailChoice => EmailsHaveNoNewline();
      case CpfChoice => CpfsHaveNoNewline();
      case PhoneChoice => PhonesHaveNoNewline();
    }
    assert '\n' !in Label(c);
    assert line[|Label(c)|..] == TrainValues(c)[pick];
    SplitNoSep(line, '\n');
  }

  /** Why no training data is produced. */
  datatype TrainError = EmptyDataset

  /** The labelling loop: an empty text list is rejected; otherwise X and y
      have one entry per text, in order; y is 1 exactly for the texts given
      an injection (`draws[i]` holds its kind and value position) and 0 for
      the texts kept unchanged. */
  method LabelTexts(texts: seq<string>, draws: seq<Option<(Choice, nat)>>)
    returns (result: Result<(seq<string>, seq<int>), TrainError>)
    requires |draws| == |texts|
    requires forall i :: 0 <= i < |draws| && draws[i].Some? ==> draws[i].value.1 < |TrainValues(draws[i].value.0)|
    ensures result.Err? <==> texts == []
    ensures result.Ok? ==> |result.value.0| == |result.value.1| == |texts|
    ensures result.Ok? ==> forall i :: 0 <= i < |texts| ==>
      (result.value.1[i] == 1 <==> draws[i].Some?) && (result.value.1[i] == 0 <==> draws[i].None?)
    ensures result.Ok? ==> forall i :: 0 <= i < |texts| && draws[i].None? ==> result.value.0[i] == texts[i]
    ensures result.Ok? ==> forall i :: 0 <= i < |texts| && draws[i].Some? ==>
      result.value.0[i] == InjectPii(texts[i], draws[i].value.0, draws[i].value.1)
  {
    if texts == [] {
      return Err(EmptyDataset);
    }
    var X: seq<string> := [];
    var y: seq<int> := [];
    for i := 0 to |texts|
      invariant |X| == |y| == i
      invariant forall k :: 0 <= k < i ==> (y[k] == 1 <==> draws[k].Some?) && (y[k] == 0 <==> draws[k].None?)
      invariant forall k :: 0 <= k < i && draws[k].None? ==> X[k] == texts[k]
      invariant forall k :: 0 <= k < i && draws[k].Some? ==> X[k] == InjectPii(texts[k], draws[k].value.0, draws[k].value.1)
    {
      if draws[i].Some? {
        X := X + [InjectPii(texts[i], draws[i].value.0, draws[i].value.1)];
        y := y + [1];
      } else {
        X := X + [texts[i]];
        y := y + [0];
      }
    }
    return Ok((X, y));
  }
}

/** The single runner (src/run.py): picks the baseline or the hybrid
    predictor and describes the child command it runs. */
module Run {

  /** The value of `--mode`. */
  datatype Mode = Auto | RegexMode | HybridMode

  /** The parsed command line of the runner. */
  datatype RunArgs = RunArgs(input: string, output: string, model: string, mode: Mode, alpha: real, threshold: real)

  const DefaultModel: string := "artifacts/models/hybrid_tfidf_logreg.joblib"

  const DefaultMode: Mode := Auto

  const DefaultAlpha: real := 0.45

  const DefaultThreshold: real := 0.25

  /** The arguments when only the two required options are given. */
  function WithDefaults(input: string, output: string): (args: RunArgs)
    ensures args.input == input && args.output == output
    ensures args.model == "artifacts/models/hybrid_tfidf_logreg.joblib"
    ensures args.mode == Auto && args.alpha == 0.45 && args.threshold == 0.25
  {
    RunArgs(input, output, DefaultModel, DefaultMode, DefaultAlpha, DefaultThreshold)
  }

  /** The child predictor to run, with what it is given. */
  datatype Command =
    | Baseline(input: string, output: string, threshold: real)
    | Hybrid(input: string, model: string, output: string, alpha: real, threshold: real)

  /** The mode dispatch: `regex` always runs the baseline, `hybrid` always
      runs the hybrid predictor (whether or not the model file exists), and
      `auto` runs the hybrid predictor exactly when the model file exists.
      Input, output and threshold are passed on in every case; the weight
      and the model path only to the hybrid predictor. */
  function ChooseCommand(args: RunArgs, modelExists: bool): (c: Command)
    ensures args.mode == RegexMode ==> c.Baseline?
    ensures args.mode == HybridMode ==> c.Hybrid?
    ensures args.mode == Auto ==> (c.Hybrid? <==> modelExists)
    ensures c.input == args.input && c.output == args.output && c.threshold == args.threshold
    ensures c.Hybrid? ==> c.model == args.model && c.alpha == args.alpha
  {
    match args.mode
    case RegexMode => Baseline(args.input, args.output, args.threshold)
    case HybridMode => Hybrid(args.input, args.model, args.output, args.alpha, args.threshold)
    case Auto =>
      if modelExists then Hybrid(args.input, args.model, args.output, args.alpha, args.threshold)
      else Baseline(args.input, args.output, args.threshold)
  }

  const BaselineModule: string := "src.models.predict"

  const HybridModule: string := "src.models.predict_hybrid"

  /** The child's argument vector, `show` being the formatting of a float
      (`str`). The baseline gets `--input`, `--output`, `--threshold`; the
      hybrid predictor also `--model` and `--alpha`. */
  function Argv(exe: string, c: Command, show: real -> string): (argv: seq<string>)
    ensures |argv| == if c.Baseline? then 9 else 13
    ensures c.Baseline? ==> argv == [exe, "-m", "src.models.predict", "--input", c.input, "--output", c.output,
                                     "--threshold", show(c.threshold)]
    ensures c.Hybrid? ==> argv == [exe, "-m", "src.models.predict_hybrid", "--input", c.input, "--model", c.model,
                                   "--output", c.output, "--alpha", show(c.alpha), "--threshold", show(c.threshold)]
  {
    match c
    case Baseline(input, output, threshold) =>
      [exe, "-m", BaselineModule, "--input", input, "--output", output, "--threshold", show(threshold)]
    case Hybrid(input, model, output, alpha, threshold) =>
      [exe, "-m", HybridModule, "--input", input, "--model", model, "--output", output,
       "--alpha", show(alpha), "--threshold", show(threshold)]
  }

  /** The runner: the exit code is the exit code of the child it runs,
      unchanged. Whether the model file exists and the child process itself
      are parameters. */
  function Dispatch(args: RunArgs, modelExists: bool, exe: string, show: real -> string, call: seq<string> -> int): (code: int)
    ensures args.mode == RegexMode || (args.mode == Auto && !modelExists) ==>
      code == call([exe, "-m", "src.models.predict", "--input", args.input, "--output", args.output,
                    "--threshold", show(args.threshold)])
    ensures args.mode == HybridMode || (args.mode == Auto && modelExists) ==>
      code == call([exe, "-m", "src.models.predict_hybrid", "--input", args.input, "--model", args.model,
                    "--output", args.output, "--alpha", show(args.alpha), "--threshold", show(args.threshold)])
  {
    var argv := Argv(exe, ChooseCommand(args, modelExists), show);
    call(argv)
  }

  /** The weight never reaches the baseline: whenever the baseline is chosen,
      changing `--alpha` leaves its command line unchanged. */
  lemma AlphaOnlyForHybrid(args: RunArgs, alpha: real, modelExists: bool, exe: string, show: real -> string)
    requires ChooseCommand(args, modelExists).Baseline?
    ensures Argv(exe, ChooseCommand(args.(alpha := alpha), modelExists), show)
         == Argv(exe, ChooseCommand(args, modelExists), show)
  {
  }

  /** Only `auto` looks at the model file. */
  lemma ExplicitModeIgnoresModelFile(args: RunArgs)
    requires args.mode != Auto
    ensures ChooseCommand(args, true) == ChooseCommand(args, false)
  {
  }
}

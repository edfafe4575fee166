/**
 * The presence checks on the command-line options (create-challenge.py,
 * lines 21-67).  Every option is declared without a default, so a missing
 * option reads as `None`; the checks then report the first missing option in
 * their own order and exit with status 1.
 */
module Options {
  import opened Wrappers

  /** The parsed options; `None` is an option that was not given. */
  datatype Args = Args(
    width: Option<int>,
    height: Option<int>,
    length: Option<int>,
    count: Option<int>,
    symbols: Option<string>,
    outputDir: Option<string>,
    userId: Option<string>,
    salt: Option<string>,
    projectNumber: Option<string>)

  datatype Flag = Width | Height | Length | Count | Symbols | OutputDir | UserId | Salt | ProjectNumber

  /** The options once all of them are present. */
  datatype Config = Config(
    width: int,
    height: int,
    length: int,
    count: int,
    symbols: string,
    outputDir: string,
    userId: string,
    salt: string,
    projectNumber: string)

  /** The order in which the parser declares the options. */
  const DECLARATION_ORDER: seq<Flag> := [Width, Height, Length, Count, Symbols, OutputDir, UserId, Salt, ProjectNumber]

  /** The order in which the presence checks run; output_dir comes before symbols. */
  const CHECK_ORDER: seq<Flag> := [Width, Height, Length, Count, OutputDir, Symbols, UserId, Salt, ProjectNumber]

  /** Position of a flag in CHECK_ORDER. */
  function Rank(f: Flag): (r: nat)
    ensures r < |CHECK_ORDER| && CHECK_ORDER[r] == f
  {
    match f
    case Width => 0
    case Height => 1
    case Length => 2
    case Count => 3
    case OutputDir => 4
    case Symbols => 5
    case UserId => 6
    case Salt => 7
    case ProjectNumber => 8
  }

  predicate Given(a: Args, f: Flag) {
    match f
    case Width => a.width.Some?
    case Height => a.height.Some?
    case Length => a.length.Some?
    case Count => a.count.Some?
    case Symbols => a.symbols.Some?
    case OutputDir => a.outputDir.Some?
    case UserId => a.userId.Some?
    case Salt => a.salt.Some?
    case ProjectNumber => a.projectNumber.Some?
  }

  /** The one-line diagnostic printed for a missing option. */
  function Diagnostic(f: Flag): string {
    match f
    case Width => "Please specify the captcha image width"
    case Height => "Please specify the captcha image height"
    case Length => "Please specify the captcha length"
    case Count => "Please specify the captcha count to generate"
    case OutputDir => "Please specify the output directory"
    case Symbols => "Please specify the captcha symbols file"
    case UserId => "Please specify the userid"
    case Salt => "Please specify the salt string file"
    case ProjectNumber => "Please specify the project number"
  }

  /** The option whose check fails first, if any. */
  function FirstMissing(a: Args): (r: Option<Flag>)
    ensures r.Some? ==> !Given(a, r.value) && forall f :: Rank(f) < Rank(r.value) ==> Given(a, f)
    ensures r.None? <==> forall f :: Given(a, f)
  {
    if a.width.None? then Some(Width)
    else if a.height.None? then Some(Height)
    else if a.length.None? then Some(Length)
    else if a.count.None? then Some(Count)
    else if a.outputDir.None? then Some(OutputDir)
    else if a.symbols.None? then Some(Symbols)
    else if a.userId.None? then Some(UserId)
    else if a.salt.None? then Some(Salt)
    else if a.projectNumber.None? then Some(ProjectNumber)
    else None
  }

  datatype Checked = Proceed(config: Config) | Exit(status: int, message: string)

  /** The nine checks: exit with status 1 and one diagnostic, or go on with every value. */
  function Check(a: Args): (r: Checked)
    ensures r.Exit? <==> exists f :: !Given(a, f)
    ensures r.Exit? ==> r.status == 1
    ensures r.Exit? ==> exists f :: !Given(a, f) && r.message == Diagnostic(f)
                                    && forall g :: Rank(g) < Rank(f) ==> Given(a, g)
    ensures r.Proceed? ==> var c := r.config;
      && a.width == Some(c.width) && a.height == Some(c.height)
      && a.length == Some(c.length) && a.count == Some(c.count)
      && a.symbols == Some(c.symbols) && a.outputDir == Some(c.outputDir)
      && a.userId == Some(c.userId) && a.salt == Some(c.salt)
      && a.projectNumber == Some(c.projectNumber)
  {
    match FirstMissing(a)
    case Some(f) => Exit(1, Diagnostic(f))
    case None =>
      Proceed(Config(a.width.value, a.height.value, a.length.value, a.count.value,
                     a.symbols.value, a.outputDir.value, a.userId.value, a.salt.value,
                     a.projectNumber.value))
  }

  /** Each option has its own diagnostic, so the message names the missing option. */
  lemma DiagnosticNamesOption(f: Flag, g: Flag)
    requires Diagnostic(f) == Diagnostic(g)
    ensures f == g
  {
  }

  /**
   * With both the symbols file and the output directory missing, the output
   * directory is reported, though the symbols option is declared first.
   */
  lemma OutputDirReportedBeforeSymbols(a: Args)
    requires forall f :: f != Symbols && f != OutputDir ==> Given(a, f)
    requires !Given(a, Symbols) && !Given(a, OutputDir)
    ensures Check(a) == Exit(1, "Please specify the output directory")
    ensures exists i, j :: 0 <= i < j < |DECLARATION_ORDER| && DECLARATION_ORDER[i] == Symbols && DECLARATION_ORDER[j] == OutputDir
  {
    assert DECLARATION_ORDER[4] == Symbols && DECLARATION_ORDER[5] == OutputDir;
  }
}

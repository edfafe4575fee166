/**
 * The whole run of create-challenge.py (`main`, lines 20-115): check the
 * options, load the alphabet, generate the batch into the challenge
 * directory, write the answer key, archive the directory and remove it.
 *
 * The symbols file and the challenge directory are given by their contents;
 * SHA-1 and the random source are parameters.
 */
module Challenge {
  import opened Wrappers
  import opened Options
  import opened Symbols
  import opened Scrambler
  import opened Sampler
  import opened Batch
  import opened AnswerKey

  /**
   * How the script ends.  `MissingOption`: the diagnostic is printed and the
   * script exits with `status`.  `NoSymbols`: `random.choice` raised IndexError (exit
   * status 1), leaving the answer-key file empty.  `OutOfDraws`: a resampling
   * loop used up its budget, where the script would have kept drawing.
   * `Done`: exit status 0 with the answer-key text and the files handed to
   * `zip` (not what the archive holds afterwards: an existing archive keeps
   * its earlier entries).
   */
  datatype Ending =
    | MissingOption(status: int, message: string)
    | NoSymbols
    | OutOfDraws
    | Done(csv: string, zipped: map<string, Image>)

  /** The fixed inputs of the generation loop for a checked configuration. */
  function Setup(config: Config, symbolsFile: string, sha1: Hasher, draws: Draws, maxResamples: nat): Env {
    Env(LoadSymbols(symbolsFile), config.length, Context(config.userId, config.salt, config.projectNumber),
        sha1, draws, maxResamples)
  }

  /**
   * What a run of the script produces from the options, the text of the
   * symbols file and the challenge directory `before` it: the ending and the
   * directory afterwards.
   */
  function Script(args: Args, symbolsFile: string, before: map<string, Image>,
                  sha1: Hasher, draws: Draws, maxResamples: nat): (Ending, map<string, Image>)
  {
    var checked := Check(args);
    if checked.Exit? then (MissingOption(checked.status, checked.message), before)
    else
      var env := Setup(checked.config, symbolsFile, sha1, draws, maxResamples);
      var r := Run(env, State(before, map[], 0), RangeLength(checked.config.count));
      if r.0 == EmptySymbols then (NoSymbols, r.1.files)
      else if r.0 == Exhausted then (OutOfDraws, r.1.files)
      else (Done(Csv(r.1.mapping), r.1.files), map[])
  }

  /** `main`, with the random draws numbered from 0. */
  method CreateChallenge(args: Args, symbolsFile: string, dir: ChallengeDirectory,
                         sha1: Hasher, draws: Draws, maxResamples: nat)
    returns (ending: Ending)
    modifies dir
    ensures (ending, dir.files) == Script(args, symbolsFile, old(dir.files), sha1, draws, maxResamples)
  {
    var checked := Check(args);
    if checked.Exit? {
      ending := MissingOption(checked.status, checked.message);
      return;
    }
    var config := checked.config;
    var env := Setup(config, symbolsFile, sha1, draws, maxResamples);
    var outcome, mapping, next := Generate(dir, env, config.count, 0);
    if outcome == EmptySymbols {
      ending := NoSymbols;
    } else if outcome == Exhausted {
      ending := OutOfDraws;
    } else {
      var csv := WriteCsv(mapping);
      var zipped := dir.files;
      dir.Remove();
      ending := Done(csv, zipped);
    }
  }

  /**
   * The script stops at the checks exactly when an option is missing; it
   * then exits with status 1, reports the first missing one in check order
   * and touches nothing.
   */
  lemma ScriptChecksFirst(args: Args, symbolsFile: string, before: map<string, Image>,
                          sha1: Hasher, draws: Draws, maxResamples: nat)
    ensures var (e, after) := Script(args, symbolsFile, before, sha1, draws, maxResamples);
            && (e.MissingOption? <==> exists f :: !Given(args, f))
            && (e.MissingOption? ==> && e.status == 1 && after == before
                                     && FirstMissing(args).Some? && e.message == Diagnostic(FirstMissing(args).value))
  {
  }

  /**
   * With every option given, the script fails on the alphabet exactly when the
   * stripped first line is empty and both count and length are positive; no
   * image has been written then.
   */
  lemma ScriptEmptyAlphabet(args: Args, symbolsFile: string, before: map<string, Image>,
                            sha1: Hasher, draws: Draws, maxResamples: nat)
    requires Check(args).Proceed?
    ensures var (e, after) := Script(args, symbolsFile, before, sha1, draws, maxResamples);
            && (e == NoSymbols <==> LoadSymbols(symbolsFile) == [] && args.count.value > 0 && args.length.value > 0)
            && (e == NoSymbols ==> after == before)
  {
    var config := Check(args).config;
    var env := Setup(config, symbolsFile, sha1, draws, maxResamples);
    RunFromScratch(env, before, 0, RangeLength(config.count));
  }

  /**
   * A finished run leaves no challenge directory; its answer key reads back,
   * one line per image in ascending name order, as a mapping of `count`
   * entries.  Each entry names a file handed to `zip` that did not exist
   * before and holds the image of the entry's answer, a well-formed answer
   * over the alphabet; the files zipped are those and what was there before.
   */
  lemma ScriptAnswerKey(args: Args, symbolsFile: string, before: map<string, Image>,
                        sha1: Hasher, draws: Draws, maxResamples: nat)
    requires Script(args, symbolsFile, before, sha1, draws, maxResamples).0.Done?
    ensures var (e, after) := Script(args, symbolsFile, before, sha1, draws, maxResamples);
            && after == map[]
            && ParseCsv(e.csv).Some?
            && var m := ParseCsv(e.csv).value;
            && ParseRecords(e.csv) == Some(Entries(m, SortedKeys(m.Keys)))
            && |m| == RangeLength(args.count.value)
            && m.Keys !! before.Keys
            && e.zipped.Keys == before.Keys + m.Keys
            && (forall k :: k in before ==> e.zipped[k] == before[k])
            && forall k :: k in m ==>
                 && e.zipped[k] == Image(m[k])
                 && k == Name(sha1, m[k], Context(args.userId.value, args.salt.value, args.projectNumber.value)) + EXTENSION
                 && IsAnswer(m[k], LoadSymbols(symbolsFile), args.length.value)
  {
    var config := Check(args).config;
    var env := Setup(config, symbolsFile, sha1, draws, maxResamples);
    var n := RangeLength(config.count);
    var r := Run(env, State(before, map[], 0), n);
    RunFromScratch(env, before, 0, n);
    var m := r.1.mapping;
    SymbolsHaveNoNewline(symbolsFile);
    forall k | k in m
      ensures ',' !in k && '\n' !in k && '\n' !in m[k]
    {
      FileNamePlain(env, m[k]);
    }
    CsvRoundTrip(m);
  }
}

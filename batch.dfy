/**
 * Batch generation with collision avoidance (create-challenge.py, lines
 * 85-103).  For each of the `count` iterations an answer is sampled and
 * named; while a file of that name already exists in the challenge directory
 * a new answer is drawn; then the image is written and
 * `mapping[name + '.png'] = captcha_text` is recorded.
 *
 * The loop looks only at the directory, never at the mapping.  Since every
 * write puts its name into the directory, no key is ever recorded twice and
 * a completed batch has exactly `count` keys.
 *
 * The resampling `while` has no bound in the source; the model gives it a
 * budget of `maxResamples` draws per iteration and reports `Exhausted` when the
 * budget runs out, so every property below holds of the runs that finish.
 */
module Batch {
  import opened Wrappers
  import opened Scrambler
  import opened Sampler

  /** A written image, abstracted to the answer it was rendered from. */
  datatype Image = Image(answer: string)

  const EXTENSION: string := ".png"

  /** Everything the generation loop reads but never changes. */
  datatype Env = Env(
    symbols: string,
    length: int,
    ctx: Context,
    sha1: Hasher,
    draws: Draws,
    maxResamples: nat)

  /** The file (and mapping key) for an answer: its scrambled name plus ".png". */
  function FileName(env: Env, answer: string): string {
    Name(env.sha1, answer, env.ctx) + EXTENSION
  }

  /** A file name holds only hex digits and ".png": no comma and no newline. */
  lemma FileNamePlain(env: Env, answer: string)
    ensures ',' !in FileName(env, answer) && '\n' !in FileName(env, answer)
  {
    var stem := Name(env.sha1, answer, env.ctx);
    var name := FileName(env, answer);
    forall i | 0 <= i < |name|
      ensures name[i] != ',' && name[i] != '\n'
    {
      if i < |stem| {
        assert name[i] == stem[i] && IsHexDigit(stem[i]);
      } else {
        assert name[i] == EXTENSION[i - |stem|];
      }
    }
  }

  /**
   * How a run ends: all iterations done; `random.choice` on an empty alphabet
   * (the IndexError Python raises); or a resampling budget used up.
   */
  datatype Outcome = Completed | EmptySymbols | Exhausted

  /** The challenge directory, the mapping and the next unused random draw. */
  datatype State = State(files: map<string, Image>, mapping: map<string, string>, next: nat)

  /** The resampling loop: keep `answer` once its file is free, otherwise draw another. */
  function Accept(env: Env, taken: set<string>, answer: string, next: nat, budget: nat): Option<(string, nat)>
    requires CanSample(env.symbols, env.length)
    decreases budget
  {
    if FileName(env, answer) !in taken then Some((answer, next))
    else if budget == 0 then None
    else Accept(env, taken, Answer(env.symbols, env.length, env.draws, next),
                next + RangeLength(env.length), budget - 1)
  }

  /** One iteration of the `for` loop; None when its resampling budget runs out. */
  function Step(env: Env, st: State): Option<State>
    requires CanSample(env.symbols, env.length)
  {
    var first := Answer(env.symbols, env.length, env.draws, st.next);
    var accepted := Accept(env, st.files.Keys, first, st.next + RangeLength(env.length), env.maxResamples);
    if accepted.None? then None else Some(Commit(env, st, accepted.value.0, accepted.value.1))
  }

  /** Writing the image of an accepted answer and recording it in the mapping. */
  function Commit(env: Env, st: State, answer: string, next: nat): State {
    var name := FileName(env, answer);
    State(st.files[name := Image(answer)], st.mapping[name := answer], next)
  }

  /** `n` iterations of the `for` loop from state `st`. */
  function Run(env: Env, st: State, n: nat): (Outcome, State)
    decreases n
  {
    if n == 0 then (Completed, st)
    else if !CanSample(env.symbols, env.length) then (EmptySymbols, st)
    else
      var stepped := Step(env, st);
      if stepped.None? then (Exhausted, st) else Run(env, stepped.value, n - 1)
  }

  /**
   * What generation keeps true, relative to the directory `before` the run:
   * no key names a file that existed before; the directory holds exactly the
   * old files (untouched) and the recorded keys; each key names the file
   * holding the image of its answer, is that answer's name plus ".png", and
   * its answer is well formed.
   */
  ghost predicate Consistent(env: Env, before: map<string, Image>, st: State) {
    && st.mapping.Keys !! before.Keys
    && st.files.Keys == before.Keys + st.mapping.Keys
    && (forall k :: k in before ==> st.files[k] == before[k])
    && (forall k :: k in st.mapping ==>
          && st.files[k] == Image(st.mapping[k])
          && k == FileName(env, st.mapping[k])
          && IsAnswer(st.mapping[k], env.symbols, env.length))
  }

  /** `m` agrees with `m'` wherever `m` is defined. */
  ghost predicate SubMap(m: map<string, string>, m': map<string, string>) {
    forall k :: k in m ==> k in m' && m'[k] == m[k]
  }

  /** A name is accepted only when no file has it, and it is a well-formed answer. */
  lemma {:induction false} AcceptSound(env: Env, taken: set<string>, answer: string, next: nat, budget: nat)
    requires CanSample(env.symbols, env.length)
    requires IsAnswer(answer, env.symbols, env.length)
    ensures var r := Accept(env, taken, answer, next, budget);
            r.Some? ==> FileName(env, r.value.0) !in taken && IsAnswer(r.value.0, env.symbols, env.length)
    decreases budget
  {
    if FileName(env, answer) in taken && budget > 0 {
      AcceptSound(env, taken, Answer(env.symbols, env.length, env.draws, next),
                  next + RangeLength(env.length), budget - 1);
    }
  }

  /** Committing a free name adds exactly one key and only adds files. */
  lemma CommitGrows(env: Env, st: State, answer: string, next: nat)
    requires st.mapping.Keys <= st.files.Keys
    requires FileName(env, answer) !in st.files
    ensures var st' := Commit(env, st, answer, next);
            && |st'.mapping| == |st.mapping| + 1
            && SubMap(st.mapping, st'.mapping)
            && st.files.Keys <= st'.files.Keys
  {
    var name := FileName(env, answer);
    var st' := Commit(env, st, answer, next);
    assert name !in st.mapping;
    assert st'.mapping.Keys == st.mapping.Keys + {name};
    assert |st'.mapping.Keys| == |st.mapping.Keys| + 1;
  }

  /** Committing a free, well-formed answer keeps Consistent. */
  lemma CommitConsistent(env: Env, before: map<string, Image>, st: State, answer: string, next: nat)
    requires Consistent(env, before, st)
    requires FileName(env, answer) !in st.files && IsAnswer(answer, env.symbols, env.length)
    ensures Consistent(env, before, Commit(env, st, answer, next))
  {
    var name := FileName(env, answer);
    var st' := Commit(env, st, answer, next);
    assert name !in st.mapping && name !in before;
    assert st'.mapping.Keys == st.mapping.Keys + {name};
    assert st'.files.Keys == st.files.Keys + {name};
    forall k | k in before
      ensures st'.files[k] == before[k]
    {
      assert k != name;
    }
    forall k | k in st'.mapping
      ensures && st'.files[k] == Image(st'.mapping[k])
              && k == FileName(env, st'.mapping[k])
              && IsAnswer(st'.mapping[k], env.symbols, env.length)
    {
      if k != name {
        assert st'.files[k] == st.files[k] && st'.mapping[k] == st.mapping[k];
      }
    }
  }

  /** Every recorded key names a file of the directory. */
  ghost predicate Recorded(st: State) {
    st.mapping.Keys <= st.files.Keys
  }

  /** A finished iteration adds one new key, changes no recorded one and removes no file. */
  lemma StepGrows(env: Env, st: State)
    requires CanSample(env.symbols, env.length)
    requires Recorded(st)
    ensures var r := Step(env, st);
            r.Some? ==>
              && Recorded(r.value)
              && |r.value.mapping| == |st.mapping| + 1
              && SubMap(st.mapping, r.value.mapping)
              && st.files.Keys <= r.value.files.Keys
  {
    var first := Answer(env.symbols, env.length, env.draws, st.next);
    var r := Accept(env, st.files.Keys, first, st.next + RangeLength(env.length), env.maxResamples);
    AcceptSound(env, st.files.Keys, first, st.next + RangeLength(env.length), env.maxResamples);
    if r.Some? {
      assert Step(env, st) == Some(Commit(env, st, r.value.0, r.value.1));
      CommitGrows(env, st, r.value.0, r.value.1);
    } else {
      assert Step(env, st) == None;
    }
  }

  /** A finished iteration keeps Consistent. */
  lemma StepConsistent(env: Env, before: map<string, Image>, st: State)
    requires CanSample(env.symbols, env.length)
    requires Consistent(env, before, st)
    ensures var r := Step(env, st);
            r.Some? ==> Consistent(env, before, r.value)
  {
    var first := Answer(env.symbols, env.length, env.draws, st.next);
    var r := Accept(env, st.files.Keys, first, st.next + RangeLength(env.length), env.maxResamples);
    AcceptSound(env, st.files.Keys, first, st.next + RangeLength(env.length), env.maxResamples);
    if r.Some? {
      assert Step(env, st) == Some(Commit(env, st, r.value.0, r.value.1));
      CommitConsistent(env, before, st, r.value.0, r.value.1);
    } else {
      assert Step(env, st) == None;
    }
  }

  /**
   * Through `n` iterations every key stays a file, and the run completes
   * exactly when it has added `n` keys.  It stops on an empty alphabet exactly
   * when a symbol would have to be drawn, and then nothing has changed.
   */
  lemma {:induction false} RunCount(env: Env, st: State, n: nat)
    requires Recorded(st)
    ensures var r := Run(env, st, n);
            && Recorded(r.1)
            && (r.0 == Completed <==> |r.1.mapping| == |st.mapping| + n)
            && (r.0 == EmptySymbols <==> n > 0 && !CanSample(env.symbols, env.length))
            && (r.0 == EmptySymbols ==> r.1 == st)
    decreases n
  {
    if n == 0 {
      assert Run(env, st, n) == (Completed, st);
    } else if !CanSample(env.symbols, env.length) {
      assert Run(env, st, n) == (EmptySymbols, st);
    } else {
      StepGrows(env, st);
      var stepped := Step(env, st);
      if stepped.Some? {
        RunCount(env, stepped.value, n - 1);
        assert Run(env, st, n) == Run(env, stepped.value, n - 1);
      } else {
        assert Run(env, st, n) == (Exhausted, st);
      }
    }
  }

  lemma SubMapTransitive(m1: map<string, string>, m2: map<string, string>, m3: map<string, string>)
    requires SubMap(m1, m2) && SubMap(m2, m3)
    ensures SubMap(m1, m3)
  {
    forall k | k in m1
      ensures k in m3 && m3[k] == m1[k]
    {
      assert k in m2 && m2[k] == m1[k];
    }
  }

  /** Generation never changes or drops a recorded key. */
  lemma {:induction false} RunGrows(env: Env, st: State, n: nat)
    requires Recorded(st)
    ensures SubMap(st.mapping, Run(env, st, n).1.mapping)
    decreases n
  {
    if n == 0 {
      assert Run(env, st, n) == (Completed, st);
    } else if !CanSample(env.symbols, env.length) {
      assert Run(env, st, n) == (EmptySymbols, st);
    } else {
      StepGrows(env, st);
      var stepped := Step(env, st);
      if stepped.Some? {
        var mid := stepped.value;
        RunGrows(env, mid, n - 1);
        assert Run(env, st, n) == Run(env, mid, n - 1);
        SubMapTransitive(st.mapping, mid.mapping, Run(env, mid, n - 1).1.mapping);
      } else {
        assert Run(env, st, n) == (Exhausted, st);
      }
    }
  }

  /** Consistent holds after any number of iterations. */
  lemma {:induction false} RunConsistent(env: Env, before: map<string, Image>, st: State, n: nat)
    requires Consistent(env, before, st)
    ensures Consistent(env, before, Run(env, st, n).1)
    decreases n
  {
    if n > 0 && CanSample(env.symbols, env.length) {
      StepConsistent(env, before, st);
      var stepped := Step(env, st);
      if stepped.Some? {
        RunConsistent(env, before, stepped.value, n - 1);
        assert Run(env, st, n) == Run(env, stepped.value, n - 1);
      }
    }
  }

  /**
   * What `n` iterations from directory `before` and an empty mapping leave:
   * the state is Consistent; the run completed exactly when it recorded `n`
   * keys; it stopped on an empty alphabet exactly when a symbol had to be
   * drawn from none, and then it changed nothing.
   */
  ghost predicate Generated(env: Env, before: map<string, Image>, n: nat, o: Outcome, st: State) {
    && Consistent(env, before, st)
    && (o == Completed <==> |st.mapping| == n)
    && (o == EmptySymbols <==> n > 0 && !CanSample(env.symbols, env.length))
    && (o == EmptySymbols ==> st.files == before && st.mapping == map[])
  }

  /** Every run from an empty mapping satisfies Generated. */
  lemma RunFromScratch(env: Env, before: map<string, Image>, pos: nat, n: nat)
    ensures var r := Run(env, State(before, map[], pos), n);
            Generated(env, before, n, r.0, r.1)
  {
    RunCount(env, State(before, map[], pos), n);
    RunConsistent(env, before, State(before, map[], pos), n);
  }

  /**
   * A run from an empty mapping that completes records exactly `n` distinct
   * keys, each a ".png" name of a file that did not exist before and now
   * holds the image of the key's answer.
   */
  lemma BatchKeys(env: Env, before: map<string, Image>, pos: nat, n: nat)
    ensures var (o, st) := Run(env, State(before, map[], pos), n);
            && (o == Completed ==> |st.mapping| == n)
            && st.mapping.Keys !! before.Keys
            && st.files.Keys == before.Keys + st.mapping.Keys
            && forall k :: k in st.mapping ==>
                 && |k| >= |EXTENSION| && k[|k| - |EXTENSION|..] == EXTENSION
                 && st.files[k] == Image(st.mapping[k])
                 && |st.mapping[k]| == RangeLength(env.length)
                 && (forall i :: 0 <= i < |st.mapping[k]| ==> st.mapping[k][i] in env.symbols)
  {
    var r := Run(env, State(before, map[], pos), n);
    RunFromScratch(env, before, pos, n);
    forall k | k in r.1.mapping
      ensures |k| >= |EXTENSION| && k[|k| - |EXTENSION|..] == EXTENSION
    {
      FileNameSuffix(env, r.1.mapping[k]);
    }
  }

  lemma FileNameSuffix(env: Env, answer: string)
    ensures var name := FileName(env, answer);
            |name| >= |EXTENSION| && name[|name| - |EXTENSION|..] == EXTENSION
  {
    var stem := Name(env.sha1, answer, env.ctx);
    assert (stem + EXTENSION)[|stem|..] == EXTENSION;
  }

  lemma TwoChoices(symbols: string, draws: Draws, pos: nat)
    requires |symbols| > 0
    ensures Answer(symbols, 2, draws, pos) == [Choice(symbols, draws, pos), Choice(symbols, draws, pos + 1)]
  {
  }

  /** The draws and names of the resampling example below. */
  ghost predicate ResampleExample(env: Env) {
    && env.symbols == "AB" && env.length == 2 && env.maxResamples > 0
    && env.draws(0) == 0 && env.draws(1) == 0 && env.draws(2) == 0 && env.draws(3) == 1
    && env.draws(4) == 0 && env.draws(5) == 0 && env.draws(6) == 1 && env.draws(7) == 1
    && FileName(env, "AA") != FileName(env, "AB")
    && FileName(env, "AA") != FileName(env, "BB") && FileName(env, "AB") != FileName(env, "BB")
  }

  /** The first iteration of the example draws "AA" and writes it. */
  lemma ExampleRound1(env: Env)
    requires ResampleExample(env)
    ensures Run(env, State(map[], map[], 0), 3)
         == Run(env, State(map[FileName(env, "AA") := Image("AA")], map[FileName(env, "AA") := "AA"], 2), 2)
  {
    TwoChoices(env.symbols, env.draws, 0);
    RunAccepted(env, State(map[], map[], 0), 3, "AA", 2);
  }

  /** The second iteration draws "AB", whose file is free. */
  lemma ExampleRound2(env: Env)
    requires ResampleExample(env)
    ensures var nA, nB := FileName(env, "AA"), FileName(env, "AB");
            (Run(env, State(map[nA := Image("AA")], map[nA := "AA"], 2), 2)
             == Run(env, State(map[nA := Image("AA"), nB := Image("AB")], map[nA := "AA", nB := "AB"], 4), 1))
  {
    var nA := FileName(env, "AA");
    var st1 := State(map[nA := Image("AA")], map[nA := "AA"], 2);
    TwoChoices(env.symbols, env.draws, 2);
    assert FileName(env, "AB") !in st1.files;
    RunAccepted(env, st1, 2, "AB", 4);
  }

  /** The third iteration draws "AA" again, finds its file and draws "BB" instead. */
  lemma ExampleRound3(env: Env)
    requires ResampleExample(env)
    ensures var nA, nB, nC := FileName(env, "AA"), FileName(env, "AB"), FileName(env, "BB");
            (Run(env, State(map[nA := Image("AA"), nB := Image("AB")], map[nA := "AA", nB := "AB"], 4), 1)
             == (Completed, State(map[nA := Image("AA"), nB := Image("AB"), nC := Image("BB")],
                                  map[nA := "AA", nB := "AB", nC := "BB"], 8)))
  {
    var nA, nB := FileName(env, "AA"), FileName(env, "AB");
    var st2 := State(map[nA := Image("AA"), nB := Image("AB")], map[nA := "AA", nB := "AB"], 4);
    TwoChoices(env.symbols, env.draws, 4);
    TwoChoices(env.symbols, env.draws, 6);
    assert FileName(env, "AA") in st2.files && FileName(env, "BB") !in st2.files;
    AcceptRetry(env, st2.files.Keys, "AA", 6, env.maxResamples);
    RunAccepted(env, st2, 1, "BB", 8);
  }

  /**
   * Resampling at work: over "AB" with length 2, the third iteration draws
   * "AA" a second time, finds its file and draws "BB" instead; the batch of
   * three completes with three keys after eight draws.
   */
  lemma RepeatIsResampled(env: Env)
    requires ResampleExample(env)
    ensures Run(env, State(map[], map[], 0), 3).0 == Completed
    ensures Run(env, State(map[], map[], 0), 3).1.mapping
         == map[FileName(env, "AA") := "AA", FileName(env, "AB") := "AB", FileName(env, "BB") := "BB"]
    ensures Run(env, State(map[], map[], 0), 3).1.next == 8
  {
    ExampleRound1(env);
    ExampleRound2(env);
    ExampleRound3(env);
  }

  /** Every draw yields the answer `a`. */
  ghost predicate SingleAnswer(env: Env, a: string) {
    && CanSample(env.symbols, env.length)
    && forall p: nat :: Answer(env.symbols, env.length, env.draws, p) == a
  }

  /** With length zero or less the only answer is the empty one. */
  lemma NoLengthSingleAnswer(env: Env)
    requires env.length <= 0
    ensures SingleAnswer(env, "")
  {
  }

  /** With a one-symbol alphabet the only answer repeats that symbol `length` times. */
  lemma OneSymbolSingleAnswer(env: Env, c: char)
    requires env.symbols == [c]
    ensures SingleAnswer(env, seq(RangeLength(env.length), _ => c))
  {
    forall p: nat
      ensures Answer(env.symbols, env.length, env.draws, p) == seq(RangeLength(env.length), _ => c)
    {
      var a := Answer(env.symbols, env.length, env.draws, p);
      forall i | 0 <= i < |a|
        ensures a[i] == c
      {
        assert a[i] in env.symbols;
      }
    }
  }

  /** When every draw yields the same answer and its name is taken, no budget finds a free name. */
  lemma {:induction false} AcceptStuck(env: Env, a: string, taken: set<string>, next: nat, budget: nat)
    requires SingleAnswer(env, a) && FileName(env, a) in taken
    ensures Accept(env, taken, a, next, budget).None?
    decreases budget
  {
    if budget > 0 {
      assert Answer(env.symbols, env.length, env.draws, next) == a;
      AcceptStuck(env, a, taken, next + RangeLength(env.length), budget - 1);
    }
  }

  /**
   * When every draw yields the same answer, a batch runs out of draws exactly
   * at the first iteration whose name is taken: the second, or the first if
   * that file existed before; the source loops forever there.
   */
  lemma SingleAnswerStalls(env: Env, a: string, before: map<string, Image>, pos: nat, n: nat)
    requires SingleAnswer(env, a)
    ensures Run(env, State(before, map[], pos), n).0 == Exhausted
        <==> n >= 2 || (n >= 1 && FileName(env, a) in before)
  {
    if n > 0 {
      var st := State(before, map[], pos);
      var after := pos + RangeLength(env.length);
      assert Answer(env.symbols, env.length, env.draws, pos) == a;
      if FileName(env, a) in before {
        AcceptStuck(env, a, before.Keys, after, env.maxResamples);
        RunExhausted(env, st, n);
      } else {
        RunAccepted(env, st, n, a, after);
        var st1 := Commit(env, st, a, after);
        if n == 1 {
          assert Run(env, st1, 0) == (Completed, st1);
        } else {
          assert Answer(env.symbols, env.length, env.draws, after) == a;
          AcceptStuck(env, a, st1.files.Keys, after + RangeLength(env.length), env.maxResamples);
          RunExhausted(env, st1, n - 1);
        }
      }
    } else {
      assert Run(env, State(before, map[], pos), n) == (Completed, State(before, map[], pos));
    }
  }

  /** The challenge directory: the files it holds and what each one shows. */
  class ChallengeDirectory {
    var files: map<string, Image>

    constructor (existing: map<string, Image>)
      ensures files == existing
    {
      files := existing;
    }

    /** `os.path.exists` for a file of the directory. */
    method Exists(name: string) returns (b: bool)
      ensures b <==> name in files
    {
      b := name in files;
    }

    /** `cv2.imwrite`: creates the file, or replaces it. */
    method Write(name: string, image: Image)
      modifies this
      ensures files == old(files)[name := image]
    {
      files := files[name := image];
    }

    /** `shutil.rmtree`: the directory and everything in it go away. */
    method Remove()
      modifies this
      ensures files == map[]
    {
      files := map[];
    }
  }

  /** One more round of the resampling loop. */
  lemma AcceptRetry(env: Env, taken: set<string>, answer: string, next: nat, budget: nat)
    requires CanSample(env.symbols, env.length)
    requires FileName(env, answer) in taken && budget > 0
    ensures Accept(env, taken, answer, next, budget)
         == Accept(env, taken, Answer(env.symbols, env.length, env.draws, next), next + RangeLength(env.length), budget - 1)
  {
  }

  /** An iteration that accepts `answer` commits it and leaves n - 1 iterations. */
  lemma RunAccepted(env: Env, st: State, n: nat, answer: string, next: nat)
    requires n > 0 && CanSample(env.symbols, env.length)
    requires Accept(env, st.files.Keys, Answer(env.symbols, env.length, env.draws, st.next),
                    st.next + RangeLength(env.length), env.maxResamples) == Some((answer, next))
    ensures Run(env, st, n) == Run(env, Commit(env, st, answer, next), n - 1)
  {
    assert Step(env, st) == Some(Commit(env, st, answer, next));
  }

  /** An iteration whose resampling budget runs out ends the run where it started. */
  lemma RunExhausted(env: Env, st: State, n: nat)
    requires n > 0 && CanSample(env.symbols, env.length)
    requires Accept(env, st.files.Keys, Answer(env.symbols, env.length, env.draws, st.next),
                    st.next + RangeLength(env.length), env.maxResamples).None?
    ensures Run(env, st, n) == (Exhausted, st)
  {
    assert Step(env, st) == None;
  }

  /**
   * The `if os.path.exists(...)` test and the resampling `while` of one
   * iteration, with a budget of `env.maxResamples` new draws.  A name is
   * accepted only when no file of the directory has it.
   */
  method FreeName(dir: ChallengeDirectory, env: Env, answer: string, after: nat)
    returns (found: bool, accepted: string, next: nat, name: string)
    requires CanSample(env.symbols, env.length)
    ensures found <==> Accept(env, dir.files.Keys, answer, after, env.maxResamples).Some?
    ensures found ==> Accept(env, dir.files.Keys, answer, after, env.maxResamples) == Some((accepted, next))
    ensures found ==> name == FileName(env, accepted) && name !in dir.files
  {
    accepted, next := answer, after;
    name := Scramble(env.sha1, accepted, env.ctx.userId, env.ctx.salt, env.ctx.projectNumber) + EXTENSION;
    var taken := dir.Exists(name);
    if taken {
      var budget := env.maxResamples;
      while taken
        invariant name == FileName(env, accepted) && (taken <==> name in dir.files)
        invariant Accept(env, dir.files.Keys, answer, after, env.maxResamples)
               == Accept(env, dir.files.Keys, accepted, next, budget)
        decreases budget
      {
        if budget == 0 {
          found := false;
          return;
        }
        AcceptRetry(env, dir.files.Keys, accepted, next, budget);
        budget := budget - 1;
        accepted, next := SampleAnswer(env.symbols, env.length, env.draws, next);
        name := Scramble(env.sha1, accepted, env.ctx.userId, env.ctx.salt, env.ctx.projectNumber) + EXTENSION;
        taken := dir.Exists(name);
      }
    }
    found := true;
  }

  /**
   * One iteration of the `for` loop: sample an answer, find it a free name,
   * write its image and record it.  Changes nothing when the resampling
   * budget runs out.
   */
  method GenerateOne(dir: ChallengeDirectory, env: Env, mapping: map<string, string>, next: nat)
    returns (found: bool, mapping': map<string, string>, next': nat)
    requires CanSample(env.symbols, env.length)
    modifies dir
    ensures found <==> Step(env, State(old(dir.files), mapping, next)).Some?
    ensures found ==> Step(env, State(old(dir.files), mapping, next)) == Some(State(dir.files, mapping', next'))
    ensures !found ==> dir.files == old(dir.files) && mapping' == mapping && next' == next
  {
    ghost var st := State(dir.files, mapping, next);
    var first, firstAfter := SampleAnswer(env.symbols, env.length, env.draws, next);
    var answer, after, name;
    found, answer, after, name := FreeName(dir, env, first, firstAfter);
    mapping', next' := mapping, next;
    if found {
      assert Step(env, st) == Some(Commit(env, st, answer, after));
      dir.Write(name, Image(answer));
      mapping', next' := mapping[name := answer], after;
    } else {
      assert Step(env, st) == None;
    }
  }

  /** A run of at least one iteration is one step followed by the rest. */
  lemma RunUnfold(env: Env, st: State, n: nat)
    requires n > 0 && CanSample(env.symbols, env.length)
    ensures Run(env, st, n) == if Step(env, st).None? then (Exhausted, st) else Run(env, Step(env, st).value, n - 1)
  {
  }

  /**
   * The generation loop.  Draws start at `pos`; returns how the run ended,
   * the mapping and the next unused draw, and leaves the written images in
   * `dir`.
   */
  method Generate(dir: ChallengeDirectory, env: Env, count: int, pos: nat)
    returns (outcome: Outcome, mapping: map<string, string>, next: nat)
    modifies dir
    ensures (outcome, State(dir.files, mapping, next)) == Run(env, State(old(dir.files), map[], pos), RangeLength(count))
    ensures Generated(env, old(dir.files), RangeLength(count), outcome, State(dir.files, mapping, next))
  {
    var n := RangeLength(count);
    ghost var start := State(dir.files, map[], pos);
    mapping, next := map[], pos;
    outcome := Completed;
    var i := 0;
    while i < n
      invariant 0 <= i <= n
      invariant Run(env, start, n) == Run(env, State(dir.files, mapping, next), n - i)
    {
      if !CanSample(env.symbols, env.length) {
        // random.choice on an empty alphabet raises IndexError
        outcome := EmptySymbols;
        break;
      }
      RunUnfold(env, State(dir.files, mapping, next), n - i);
      var found;
      found, mapping, next := GenerateOne(dir, env, mapping, next);
      if !found {
        outcome := Exhausted;
        break;
      }
      i := i + 1;
    }
    assert Run(env, start, n) == (outcome, State(dir.files, mapping, next));
    RunFromScratch(env, old(dir.files), pos, n);
  }
}

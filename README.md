# Challenge batch generator, modelled in Dafny

`create-challenge.py` builds a batch of captcha challenges for one
recipient. It runs in these stages:

1. It checks that all nine command-line options are present.
2. It reads the symbol alphabet from the first line of a file.
3. It draws `count` random answers.
4. It names each answer by the SHA-1 hex digest of
   `user_id + salt + project_number + answer`.
5. When a file of that name already exists in the challenge directory, it
   draws a new answer.
6. It writes each image and records `name.png -> answer`.
7. It writes the answer key as sorted `name,answer` lines.
8. It zips the directory and then removes it.

This project models that run and proves what it guarantees.

How the pieces are modelled:

- SHA-1 is an injected `Hasher`: any function from text to 40 lower-case
  hex digits.
- The random source is an injected stream of draws.
- The challenge directory is a class whose `files` map each name to an
  `Image`, and `Image` is abstracted to the answer it shows.

Modules:

- `Options` covers the presence checks.
- `Symbols` covers `readline().strip()`.
- `Scrambler` covers `scramble`.
- `Sampler` covers the answer comprehension.
- `Batch` covers the generation loop. A pure `Run`/`Step`/`Accept`
  specification sits beside the imperative `ChallengeDirectory` class and
  the `Generate` and `FreeName` methods, which are proved equal to it.
- `AnswerKey` covers the sorted answer-key file and a reader for it.
- `Challenge` covers `main` as a whole.

Behaviour of the code that the model follows:

- An empty alphabet is not rejected when it is loaded. `random.choice`
  raises IndexError at the first draw, and only if both `count` and
  `length` are positive.
- `strip()` removes whitespace at both ends of the line, not only the
  trailing newline.
- The resampling loop tests only whether the file exists. It never looks at
  the mapping. This is enough, because every recorded key is a file of the
  directory (`Batch.Consistent`). So no key is recorded twice, and a
  completed batch has exactly `count` keys.
- Files that were in the challenge directory before the run are avoided.
  They are still zipped with the new files, but are not in the answer key.
- Negative `count` or `length` behave like zero, as `range` does.
- When every draw yields the same answer (`length` zero or less, or an
  alphabet of one symbol), the source loops forever at the first iteration
  whose name is taken. That is the second iteration, or the first one if
  that file already existed.
- The archive's exit status is ignored, and the directory is removed
  regardless.

## Model

| member | source | states |
|---|---|---|
| Scrambler.PlaintextLayout | create-challenge.py:13-16 | The hashed text is user id, salt, project number and answer, in that order and with no delimiter, though the answer is the first parameter. |
| Scrambler.NameDependsOnlyOnPlaintext | create-challenge.py:15-18 | Equal plaintexts give equal digests: the name is a function of the concatenation alone. |
| Scrambler.PlaintextDeterminesAnswer | create-challenge.py:16 | Within one user, salt and project, the plaintext determines the answer, so two answers share a name only through a digest collision. |
| Scrambler.UserIdSaltBoundaryIsNotHashed | create-challenge.py:16 | Moving characters between user id and salt keeps the name, because there is no delimiter. |
| Scrambler.AnswerIsHashedLast | create-challenge.py:13-16 | `scramble("t", "u", "s", "p")` hashes "uspt". |
| Sampler.Choice | create-challenge.py:90 | `random.choice` on a non-empty alphabet returns one of its symbols. |
| Sampler.Answer | create-challenge.py:90 | A sampled answer has `max(length, 0)` characters, each a symbol of the alphabet. |
| Sampler.SampleAnswer | create-challenge.py:90 | The comprehension's loop builds exactly `Answer`, a well-formed answer, and uses one draw per character; it needs a non-empty alphabet unless the length is zero or less. |
| Options.Rank | create-challenge.py:33-67 | Gives each option its position in the order the checks run. |
| Options.FirstMissing | create-challenge.py:33-67 | Returns a missing option all of whose predecessors in check order are given, and returns none exactly when all nine are given. |
| Options.Check | create-challenge.py:21-67 | Exits exactly when some option is missing, with status 1 and the diagnostic of the first missing option in check order; otherwise proceeds with every option's value. |
| Options.DiagnosticNamesOption | create-challenge.py:33-67 | No two options share a diagnostic. |
| Options.OutputDirReportedBeforeSymbols | create-challenge.py:26-27 | With only `--symbols` and `--output-dir` missing, "Please specify the output directory" is reported, although `--symbols` is declared first. |
| Symbols.ReadLine | create-challenge.py:72 | `readline()` returns a prefix of the text that contains no newline except possibly its last character, and is either the whole text or ends in a newline. |
| Symbols.Strip | create-challenge.py:72 | `strip()` returns the slice left after dropping whitespace at both ends, with no whitespace at either end of the result. |
| Symbols.LeadingSpace | create-challenge.py:72 | Finds where the leading whitespace ends: everything before it is whitespace and the character there is not. |
| Symbols.TrailingSpace | create-challenge.py:72 | Finds where the trailing whitespace begins, never before the given start: everything after it is whitespace and the character before it is not. |
| Symbols.StripAt | create-challenge.py:72 | Any slice with only whitespace outside it and no whitespace at either end is exactly what `strip()` returns. |
| Symbols.StripCanonical | create-challenge.py:72 | There is only one way to strip a string: any stripping of it equals `Strip`'s result. |
| Symbols.StripIdempotent | create-challenge.py:72 | Stripping twice is stripping once. |
| Symbols.StrippedLineHasNoNewline | create-challenge.py:72 | Stripping a line whose only possible newline is its last character leaves no newline. |
| Symbols.ExampleFirstLine | create-challenge.py:72 | `readline()` on " AB\t\nCD" returns " AB\t\n", newline included. |
| Symbols.SymbolsHaveNoNewline | create-challenge.py:71-73 | The loaded alphabet never contains a newline. |
| Symbols.StripRemovesBothEnds | create-challenge.py:71-73 | A file starting " AB\t\nCD" gives the alphabet "AB": leading whitespace goes as well. |
| Batch.FileNamePlain | create-challenge.py:91-92 | A challenge file name has no comma and no newline. |
| Batch.FileNameSuffix | create-challenge.py:92 | A challenge file name ends in ".png". |
| Batch.AcceptSound | create-challenge.py:94-98 | The resampling loop accepts only a name no file has, and only a well-formed answer. |
| Batch.AcceptRetry | create-challenge.py:95-98 | When the name is taken, the loop draws a fresh answer from the next draws. |
| Batch.NoLengthSingleAnswer | create-challenge.py:90 | With length zero or less every draw yields the empty answer. |
| Batch.OneSymbolSingleAnswer | create-challenge.py:90 | With a one-symbol alphabet every draw yields that symbol repeated `length` times. |
| Batch.AcceptStuck | create-challenge.py:94-98 | When every draw yields the same answer and its name is taken, no budget of resamples finds a free name. |
| Batch.CommitGrows | create-challenge.py:100-103 | Writing a free name adds exactly one key, keeps every recorded key, and removes no file. |
| Batch.CommitConsistent | create-challenge.py:100-103 | Writing a free, well-formed answer keeps `Consistent`: keys are new files holding their answer's image and named after it, and old files are untouched. |
| Batch.StepGrows | create-challenge.py:89-103 | A finished iteration adds exactly one key and changes no recorded one. |
| Batch.StepConsistent | create-challenge.py:89-103 | A finished iteration keeps `Consistent`. |
| Batch.RunCount | create-challenge.py:89-103 | A run completes exactly when it added `n` keys, and stops on an empty alphabet exactly when a symbol must be drawn, changing nothing then. |
| Batch.RunGrows | create-challenge.py:89-103 | Generation never drops a recorded key or changes its answer. |
| Batch.RunConsistent | create-challenge.py:89-103 | `Consistent` holds after any number of iterations. |
| Batch.RunFromScratch | create-challenge.py:85-103 | From an empty mapping, every run satisfies `Generated`. |
| Batch.RunUnfold | create-challenge.py:89-103 | A run of one or more iterations is one iteration followed by the rest, or ends where it started when that iteration runs out of draws. |
| Batch.RunAccepted | create-challenge.py:89-103 | An iteration that accepts an answer commits it and leaves one iteration fewer. |
| Batch.RunExhausted | create-challenge.py:94-98 | An iteration whose resampling budget runs out ends the run where it started. |
| Batch.BatchKeys | create-challenge.py:85-103 | A completed batch records exactly `count` keys, each new, ending in ".png", naming a file with its answer's image, with answers of the right length over the alphabet; the directory is the old files plus the keys. |
| Batch.SingleAnswerStalls | create-challenge.py:89-98 | When every draw yields the same answer, a batch runs out of draws exactly when it has two or more iterations, or one whose name already existed; the source loops forever there. |
| Batch.ExampleRound1 | create-challenge.py:89-103 | In the example over "AB", the first iteration draws "AA" and records it. |
| Batch.ExampleRound2 | create-challenge.py:89-103 | The second iteration draws "AB", whose file is free, and records it. |
| Batch.ExampleRound3 | create-challenge.py:94-103 | The third iteration draws "AA" again, finds its file, resamples to "BB" and records it, completing the batch after eight draws. |
| Batch.RepeatIsResampled | create-challenge.py:94-98 | Over "AB" with length 2, drawing AA, AB and then AA again makes the third iteration resample to BB; the batch completes with three keys after eight draws. |
| Batch.ChallengeDirectory.constructor | create-challenge.py:80-81 | The directory starts with the given files. |
| Batch.ChallengeDirectory.Exists | create-challenge.py:94-95 | True exactly when a file of that name is present. |
| Batch.ChallengeDirectory.Write | create-challenge.py:102 | Creates or replaces that one file and changes no other. |
| Batch.ChallengeDirectory.Remove | create-challenge.py:115 | Afterwards the directory holds no file. |
| Batch.FreeName | create-challenge.py:91-98 | The `if`/`while` pair finds a name exactly when `Accept` does, returns `Accept`'s answer and next draw, and the name is one no file has. |
| Batch.GenerateOne | create-challenge.py:89-103 | One iteration of the loop body writes and records exactly what `Step` commits, and changes nothing when `Step` runs out of draws. |
| Batch.Generate | create-challenge.py:85-103 | The loop ends in exactly the outcome and state of `Run` on the old directory, so `Generated` holds: keys are new files holding their answers' images, and it completes exactly when `count` keys were recorded. |
| AnswerKey.LessIrreflexive | create-challenge.py:106 | No string sorts before itself. |
| AnswerKey.LessTransitive | create-challenge.py:106 | String order is transitive. |
| AnswerKey.LessTotal | create-challenge.py:106 | Of two different strings, one sorts first. |
| AnswerKey.LessAsymmetric | create-challenge.py:106 | Two strings never sort before each other. |
| AnswerKey.LeastExists | create-challenge.py:106 | Every non-empty set of names has a least element. |
| AnswerKey.LeastUnique | create-challenge.py:106 | The least element of a set is unique. |
| AnswerKey.SortedKeys | create-challenge.py:106 | `sorted(mapping.keys())` is strictly ascending and holds exactly the keys, once each. |
| AnswerKey.SortedUnique | create-challenge.py:106 | Two strictly ascending sequences with the same elements are equal, so the sorted order is the only one. |
| AnswerKey.RecordsCons | create-challenge.py:106-107 | The lines for a key list are the first key's line followed by the lines for the rest. |
| AnswerKey.RecordsSnoc | create-challenge.py:106-107 | One more key adds its line at the end of the file. |
| AnswerKey.WriteCsv | create-challenge.py:106-107 | The write loop produces exactly the file `Csv`: one `key,value` line per key, in ascending order. |
| AnswerKey.IndexOf | create-challenge.py:107 | Finds the first occurrence of a character, or the end. |
| AnswerKey.IndexOfAfter | create-challenge.py:107 | A character absent from a prefix is first found after it. |
| AnswerKey.ParseLine | create-challenge.py:107 | A file that starts with a line is read as that line's pair followed by the pairs of the rest, and fails when either part fails. |
| AnswerKey.SplitWritten | create-challenge.py:107 | A written `key,value` line, with no comma in the key, splits back into that key and value. |
| AnswerKey.EntriesCons | create-challenge.py:106-107 | The entries for a key list are the first key's pair followed by those of the rest. |
| AnswerKey.ParseRecord | create-challenge.py:107 | A line written for a key with no comma or newline and a value with no newline reads back as that pair. |
| AnswerKey.ParseEntries | create-challenge.py:106-107 | The lines for a key list read back as those keys' pairs, in order. |
| AnswerKey.ToMapEntries | create-challenge.py:106-107 | The pairs for a list of keys make the mapping restricted to those keys. |
| AnswerKey.CsvRoundTrip | create-challenge.py:106-107 | The file reads back as one pair per entry in ascending key order, and as the mapping itself, whenever keys have no comma or newline and values no newline. |
| AnswerKey.TwoNamesSorted | create-challenge.py:106 | "a.png" sorts before "b.png". |
| AnswerKey.CsvOrdersByName | create-challenge.py:106-107 | `{"b.png": "BA", "a.png": "AB"}` is written as "a.png,AB\nb.png,BA\n". |
| Challenge.CreateChallenge | create-challenge.py:20-115 | `main` ends exactly as `Script` says, and leaves the directory as `Script` says. |
| Challenge.ScriptChecksFirst | create-challenge.py:33-67 | The script stops at the checks exactly when an option is missing, exits with status 1, reports the first missing one, and touches no file. |
| Challenge.ScriptEmptyAlphabet | create-challenge.py:71-72 | With all options given, the script fails on the alphabet exactly when the stripped first line is empty and count and length are both positive; no image was written then. |
| Challenge.ScriptAnswerKey | create-challenge.py:85-115 | A finished run removes the challenge directory, and its answer key reads back, in ascending name order, as `count` entries. Each entry names a new file handed to `zip`, holding its answer's image, named by the digest of user id, salt, project number and answer plus ".png", with a well-formed answer. The untouched old files are zipped as well. |

## Left out

- SHA-1 (FIPS 180-4) and UTF-8 encoding, lines 14-17, are not modelled. The digest is any injected function from text to 40 lower-case hex digits.
- The random source, line 90, is not modelled. Draws are an injected stream, and nothing is said about their distribution.
- Batch.FreeName: the source's resampling loop has no bound. The model allows `maxResamples` new draws per iteration and reports `Exhausted` (`OutOfDraws` at the top level) when they run out, so what is proved holds of runs that finish.
- Image rendering and encoding (`ImageCaptcha`, `numpy`, `cv2`, lines 69, 100 and 102) are left out. An image is abstracted to its answer, and width and height do not affect the model.
- Directory creation and paths (lines 76-83, 92) are left out. The challenge directory is modelled as a single map from file name to image.
- The zip call (lines 110-113) is modelled only by its input, the directory's files (`Done.zipped`). What an existing archive already held is not modelled. The call's exit status is ignored in the source as well.
- `print` messages other than the diagnostics (lines 88, 105 and 109) are left out.
- Argument parsing (`argparse`, lines 21-31) is left out. A non-integer value, with its usage message and exit status 2, is not modelled; options arrive already parsed.
- Opening the files is left out. The symbols file is given as its text: a file that cannot be opened, new-line translation in text mode, and decoding are not modelled. The answer-key file is modelled as the text written to it.
- Exceptions other than the IndexError of an empty alphabet, such as I/O errors during writing, are not modelled.

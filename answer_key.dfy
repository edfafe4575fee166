/**
 * The answer-key file (create-challenge.py, lines 105-107): for every key of
 * the mapping, in ascending order, the line `key + "," + value + "\n"`; no
 * header.  A reader that splits each line at its first comma gives the
 * mapping back.
 */
module AnswerKey {
  import opened Wrappers

  /** Python's `<` on str: lexicographic by code point, a proper prefix first. */
  predicate Less(a: string, b: string)
    decreases |a|
  {
    |b| > 0 && (|a| == 0 || a[0] < b[0] || (a[0] == b[0] && Less(a[1..], b[1..])))
  }

  lemma {:induction false} LessIrreflexive(a: string)
    ensures !Less(a, a)
    decreases |a|
  {
    if |a| > 0 {
      LessIrreflexive(a[1..]);
    }
  }

  lemma {:induction false} LessTransitive(a: string, b: string, c: string)
    requires Less(a, b) && Less(b, c)
    ensures Less(a, c)
    decreases |a|
  {
    if |a| > 0 && a[0] == b[0] && b[0] == c[0] {
      LessTransitive(a[1..], b[1..], c[1..]);
    }
  }

  lemma {:induction false} LessTotal(a: string, b: string)
    requires a != b
    ensures Less(a, b) || Less(b, a)
    decreases |a|
  {
    if |a| > 0 && |b| > 0 && a[0] == b[0] {
      assert a == [a[0]] + a[1..] && b == [b[0]] + b[1..];
      LessTotal(a[1..], b[1..]);
    }
  }

  lemma LessAsymmetric(a: string, b: string)
    requires Less(a, b)
    ensures !Less(b, a)
  {
    if Less(b, a) {
      LessTransitive(a, b, a);
      LessIrreflexive(a);
    }
  }

  /** `k` is the least element of `s`. */
  predicate IsLeast(k: string, s: set<string>) {
    k in s && forall x :: x in s && x != k ==> Less(k, x)
  }

  lemma {:induction false} LeastExists(s: set<string>)
    requires s != {}
    ensures exists k :: IsLeast(k, s)
    decreases s
  {
    var y :| y in s;
    if s != {y} {
      var rest := s - {y};
      LeastExists(rest);
      var z :| IsLeast(z, rest);
      if Less(y, z) {
        forall x | x in s && x != y
          ensures Less(y, x)
        {
          if x != z {
            LessTransitive(y, z, x);
          }
        }
        assert IsLeast(y, s);
      } else {
        LessTotal(y, z);
        assert IsLeast(z, s);
      }
    } else {
      assert IsLeast(y, s);
    }
  }

  lemma LeastUnique(s: set<string>)
    ensures forall k, k' :: IsLeast(k, s) && IsLeast(k', s) ==> k == k'
  {
    forall k, k' | IsLeast(k, s) && IsLeast(k', s)
      ensures k == k'
    {
      if k != k' {
        LessAsymmetric(k, k');
      }
    }
  }

  predicate StrictlySorted(ks: seq<string>) {
    forall i, j :: 0 <= i < j < |ks| ==> Less(ks[i], ks[j])
  }

  /** `sorted(keys)`: the keys in ascending order. */
  function SortedKeys(keys: set<string>): (ks: seq<string>)
    ensures StrictlySorted(ks)
    ensures forall k :: k in ks <==> k in keys
    ensures |ks| == |keys|
    decreases keys
  {
    if keys == {} then []
    else
      LeastExists(keys);
      LeastUnique(keys);
      var k :| IsLeast(k, keys);
      var rest := SortedKeys(keys - {k});
      assert forall j :: 0 <= j < |rest| ==> Less(k, rest[j]);
      [k] + rest
  }

  lemma EmptyTogether(a: seq<string>, b: seq<string>)
    requires forall x :: x in a <==> x in b
    ensures a == [] <==> b == []
  {
    if a != [] {
      assert a[0] in a;
    }
    if b != [] {
      assert b[0] in b;
    }
  }

  /** Two ascending sequences with the same elements are the same sequence. */
  lemma {:induction false} SortedUnique(a: seq<string>, b: seq<string>)
    requires StrictlySorted(a) && StrictlySorted(b)
    requires forall x :: x in a <==> x in b
    ensures a == b
    decreases |a|
  {
    EmptyTogether(a, b);
    if a != [] {
      assert a[0] in b by { assert a[0] in a; }
      assert b[0] in a by { assert b[0] in b; }
      if a[0] != b[0] {
        var i :| 0 <= i < |a| && a[i] == b[0];
        var j :| 0 <= j < |b| && b[j] == a[0];
        assert Less(a[0], b[0]) by { if i == 0 { } else { } }
        assert Less(b[0], a[0]) by { if j == 0 { } else { } }
        LessAsymmetric(a[0], b[0]);
      }
      forall x
        ensures x in a[1..] <==> x in b[1..]
      {
        assert a == [a[0]] + a[1..] && b == [b[0]] + b[1..];
        if x in a[1..] {
          var i :| 1 <= i < |a| && a[i] == x;
          LessIrreflexive(a[0]);
          assert x != a[0] && x in b;
        }
        if x in b[1..] {
          var j :| 1 <= j < |b| && b[j] == x;
          LessIrreflexive(b[0]);
          assert x != b[0] && x in a;
        }
      }
      SortedUnique(a[1..], b[1..]);
      assert a == [a[0]] + a[1..] && b == [b[0]] + b[1..];
    }
  }

  /** One line of the file: `filename + "," + mapping[filename] + "\n"`. */
  function Record(key: string, value: string): string {
    key + "," + value + "\n"
  }

  /** The lines for the keys `ks`, in that order. */
  function Records(m: map<string, string>, ks: seq<string>): string
    requires forall k :: k in ks ==> k in m
    decreases |ks|
  {
    if ks == [] then "" else Records(m, ks[..|ks| - 1]) + Record(ks[|ks| - 1], m[ks[|ks| - 1]])
  }

  /** The whole answer-key file for a mapping. */
  function Csv(m: map<string, string>): string {
    Records(m, SortedKeys(m.Keys))
  }

  /** Writes the answer-key file line by line, keys in ascending order. */
  method WriteCsv(mapping: map<string, string>) returns (content: string)
    ensures content == Csv(mapping)
  {
    var keys := SortedKeys(mapping.Keys);
    content := "";
    for i := 0 to |keys|
      invariant content == Records(mapping, keys[..i])
    {
      RecordsSnoc(mapping, keys, i);
      content := content + Record(keys[i], mapping[keys[i]]);
    }
    assert keys[..|keys|] == keys;
  }

  /** One more key of a list adds its line at the end. */
  lemma RecordsSnoc(m: map<string, string>, ks: seq<string>, i: nat)
    requires i < |ks| && forall k :: k in ks ==> k in m
    ensures Records(m, ks[..i + 1]) == Records(m, ks[..i]) + Record(ks[i], m[ks[i]])
  {
    var prefix := ks[..i + 1];
    assert prefix[..i] == ks[..i] && prefix[i] == ks[i];
  }

  lemma {:induction false} RecordsCons(m: map<string, string>, k: string, ks: seq<string>)
    requires k in m && forall x :: x in ks ==> x in m
    ensures Records(m, [k] + ks) == Record(k, m[k]) + Records(m, ks)
    decreases |ks|
  {
    var full := [k] + ks;
    if ks != [] {
      var init, last := ks[..|ks| - 1], ks[|ks| - 1];
      assert full[..|full| - 1] == [k] + init && full[|full| - 1] == last;
      assert Records(m, full) == Records(m, [k] + init) + Record(last, m[last]);
      RecordsCons(m, k, init);
      assert Records(m, ks) == Records(m, init) + Record(last, m[last]);
    } else {
      assert full[..0] == [];
      assert Records(m, full) == Records(m, []) + Record(k, m[k]);
    }
  }

  /** The first index of `c` in `s`, or |s| when there is none (`str.find`, without the -1). */
  function IndexOf(s: string, c: char): (i: nat)
    ensures i <= |s|
    ensures forall k :: 0 <= k < i ==> s[k] != c
    ensures i < |s| ==> s[i] == c
    decreases |s|
  {
    if s == [] || s[0] == c then 0 else 1 + IndexOf(s[1..], c)
  }

  lemma {:induction false} IndexOfAfter(a: string, b: string, c: char)
    requires c !in a
    ensures IndexOf(a + b, c) == |a| + IndexOf(b, c)
    decreases |a|
  {
    if a != [] {
      assert (a + b)[1..] == a[1..] + b;
      IndexOfAfter(a[1..], b, c);
    } else {
      assert a + b == b;
    }
  }

  /** One line without its newline, cut at its first comma. */
  function SplitRecord(line: string): Option<(string, string)> {
    var comma := IndexOf(line, ',');
    if comma == |line| then None else Some((line[..comma], line[comma + 1..]))
  }

  /** Reads a file back into (key, value) pairs; every line must end in a newline. */
  function ParseRecords(s: string): Option<seq<(string, string)>>
    decreases |s|
  {
    if s == [] then Some([])
    else
      var nl := IndexOf(s, '\n');
      if nl == |s| then None
      else
        var record := SplitRecord(s[..nl]);
        var rest := ParseRecords(s[nl + 1..]);
        if record.None? || rest.None? then None else Some([record.value] + rest.value)
  }

  /** The pairs a dictionary built from them holds, a later key winning. */
  function ToMap(ps: seq<(string, string)>): map<string, string>
    decreases |ps|
  {
    if ps == [] then map[] else ToMap(ps[..|ps| - 1])[ps[|ps| - 1].0 := ps[|ps| - 1].1]
  }

  /** The answer-key file read back as a dictionary. */
  function ParseCsv(s: string): Option<map<string, string>> {
    var ps := ParseRecords(s);
    if ps.None? then None else Some(ToMap(ps.value))
  }

  /** The (key, value) pairs of `m` for the keys `ks`, in that order. */
  function Entries(m: map<string, string>, ks: seq<string>): (ps: seq<(string, string)>)
    requires forall k :: k in ks ==> k in m
    ensures |ps| == |ks|
  {
    seq(|ks|, i requires 0 <= i < |ks| => (ks[i], m[ks[i]]))
  }

  /** No key holds a comma or a newline and no value a newline. */
  predicate PlainEntries(m: map<string, string>) {
    forall k :: k in m ==> ',' !in k && '\n' !in k && '\n' !in m[k]
  }

  /** A newline-terminated line with no other newline is read first. */
  lemma ParseLine(line: string, rest: string)
    requires '\n' !in line
    ensures ParseRecords(line + "\n" + rest)
         == if SplitRecord(line).None? || ParseRecords(rest).None? then None
            else Some([SplitRecord(line).value] + ParseRecords(rest).value)
  {
    var s := line + "\n" + rest;
    assert s == line + ("\n" + rest);
    IndexOfAfter(line, "\n" + rest, '\n');
    assert IndexOf("\n" + rest, '\n') == 0;
    assert s[..|line|] == line;
    assert s[|line| + 1..] == rest;
  }

  /** A written line splits back into its key and value. */
  lemma SplitWritten(key: string, value: string)
    requires ',' !in key
    ensures SplitRecord(key + "," + value) == Some((key, value))
  {
    var line := key + "," + value;
    assert line == key + ("," + value);
    IndexOfAfter(key, "," + value, ',');
    assert IndexOf("," + value, ',') == 0;
    assert line[..|key|] == key && line[|key| + 1..] == value;
  }

  lemma ParseRecord(key: string, value: string, rest: string, ps: seq<(string, string)>)
    requires ',' !in key && '\n' !in key && '\n' !in value
    requires ParseRecords(rest) == Some(ps)
    ensures ParseRecords(Record(key, value) + rest) == Some([(key, value)] + ps)
  {
    var line := key + "," + value;
    assert '\n' !in line by {
      assert forall k :: 0 <= k < |line| ==> line[k] == (if k < |key| then key[k] else if k == |key| then ',' else value[k - |key| - 1]);
    }
    assert Record(key, value) + rest == line + "\n" + rest;
    ParseLine(line, rest);
    SplitWritten(key, value);
  }

  lemma EntriesCons(m: map<string, string>, ks: seq<string>)
    requires ks != [] && forall k :: k in ks ==> k in m
    ensures Entries(m, ks) == [(ks[0], m[ks[0]])] + Entries(m, ks[1..])
  {
  }

  lemma {:induction false} ParseEntries(m: map<string, string>, ks: seq<string>)
    requires PlainEntries(m) && forall k :: k in ks ==> k in m
    ensures ParseRecords(Records(m, ks)) == Some(Entries(m, ks))
    decreases |ks|
  {
    if ks != [] {
      var k, tail := ks[0], ks[1..];
      assert ks == [k] + tail;
      RecordsCons(m, k, tail);
      ParseEntries(m, tail);
      ParseRecord(k, m[k], Records(m, tail), Entries(m, tail));
      EntriesCons(m, ks);
    }
  }

  lemma {:induction false} ToMapEntries(m: map<string, string>, ks: seq<string>)
    requires forall k :: k in ks ==> k in m
    ensures ToMap(Entries(m, ks)) == map k | k in ks :: m[k]
    decreases |ks|
  {
    if ks != [] {
      var ks' := ks[..|ks| - 1];
      assert Entries(m, ks)[..|ks| - 1] == Entries(m, ks');
      ToMapEntries(m, ks');
      assert forall k :: k in ks <==> k in ks' || k == ks[|ks| - 1] by {
        assert ks == ks' + [ks[|ks| - 1]];
      }
    }
  }

  /**
   * The file reads back as the mapping it was written from, one line per
   * entry, in ascending key order.
   */
  lemma CsvRoundTrip(m: map<string, string>)
    requires PlainEntries(m)
    ensures ParseRecords(Csv(m)) == Some(Entries(m, SortedKeys(m.Keys)))
    ensures ParseCsv(Csv(m)) == Some(m)
  {
    var ks := SortedKeys(m.Keys);
    var c := Records(m, ks);
    assert Csv(m) == c;
    ParseEntries(m, ks);
    assert ParseCsv(c) == Some(ToMap(Entries(m, ks)));
    ToMapEntries(m, ks);
    var back := map k | k in ks :: m[k];
    assert back.Keys == m.Keys;
    assert forall k :: k in m ==> back[k] == m[k];
    assert back == m;
  }

  lemma TwoNamesSorted()
    ensures SortedKeys({"a.png", "b.png"}) == ["a.png", "b.png"]
  {
    assert Less("a.png", "b.png");
    SortedUnique(SortedKeys({"a.png", "b.png"}), ["a.png", "b.png"]);
  }

  /** Lines come out ordered by file name, whatever order the entries were made in. */
  lemma CsvOrdersByName()
    ensures Csv(map["b.png" := "BA", "a.png" := "AB"]) == "a.png,AB\nb.png,BA\n"
  {
    var m := map["b.png" := "BA", "a.png" := "AB"];
    var ks := ["a.png", "b.png"];
    assert m.Keys == {"a.png", "b.png"};
    TwoNamesSorted();
    assert ks[..1] == ["a.png"] && ks[..1][..0] == [];
    assert Records(m, ks[..1]) == Record("a.png", "AB");
    assert Records(m, ks) == Record("a.png", "AB") + Record("b.png", "BA");
  }
}

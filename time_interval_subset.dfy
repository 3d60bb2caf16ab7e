/**
 Selection of the data files that fall inside a time interval. The interval's
 time stamps, already formatted as strings (one key per step of the interval),
 are the input; a file belongs to a key when its name contains the key as a
 substring.
 */
module TimeIntervalSubset {

  /** t occurs in s as a contiguous substring (the membership test `t in s` on
      strings): it is a prefix of s or occurs in what follows s's first character. */
  predicate Occurs(t: string, s: string)
    decreases |s|
  {
    t <= s || (s != [] && Occurs(t, s[1..]))
  }

  /** The recursive test agrees with the positional reading of substring membership. */
  lemma {:induction false} OccursAt(t: string, s: string)
    ensures Occurs(t, s) <==> exists i :: 0 <= i <= |s| && t <= s[i..]
    decreases |s|
  {
    if s != [] {
      OccursAt(t, s[1..]);
      if Occurs(t, s[1..]) {
        var i :| 0 <= i <= |s[1..]| && t <= s[1..][i..];
        assert s[1..][i..] == s[i + 1..];
      }
      if !(t <= s) && exists i :: 0 <= i <= |s| && t <= s[i..] {
        var i :| 0 <= i <= |s| && t <= s[i..];
        assert i > 0;
        assert s[1..][i - 1..] == s[i..];
      }
    }
    assert s[0..] == s;
  }

  /** The files whose name contains key, in the order of files. */
  function Matching(files: seq<string>, key: string): (r: seq<string>)
    ensures |r| <= |files|
    ensures forall f :: f in r ==> f in files && Occurs(key, f)
  {
    if files == [] then []
    else (if Occurs(key, files[0]) then [files[0]] else []) + Matching(files[1..], key)
  }

  /** Number of files whose name contains key: a count independent of Matching. */
  function MatchCount(files: seq<string>, key: string): nat
  {
    if files == [] then 0
    else (if Occurs(key, files[0]) then 1 else 0) + MatchCount(files[1..], key)
  }

  lemma {:induction false} MatchingLength(files: seq<string>, key: string)
    ensures |Matching(files, key)| == MatchCount(files, key)
  {
    if files != [] {
      MatchingLength(files[1..], key);
    }
  }

  /** Every file containing key is kept, as often as it is listed; no other file is. */
  lemma {:induction false} MatchingMultiplicity(files: seq<string>, key: string, f: string)
    ensures multiset(Matching(files, key))[f] == if Occurs(key, f) then multiset(files)[f] else 0
  {
    if files != [] {
      MatchingMultiplicity(files[1..], key, f);
      assert files == [files[0]] + files[1..];
    }
  }

  /** The filter on a listing that starts with file x. */
  lemma MatchingCons(x: string, rest: seq<string>, key: string)
    ensures Matching([x] + rest, key) == (if Occurs(key, x) then [x] else []) + Matching(rest, key)
  {
    assert ([x] + rest)[0] == x && ([x] + rest)[1..] == rest;
  }

  /** The filter works file by file: it maps a concatenation of listings to the
      concatenation of their selections, so the listing's order is kept. */
  lemma {:induction false} MatchingAppend(a: seq<string>, b: seq<string>, key: string)
    ensures Matching(a + b, key) == Matching(a, key) + Matching(b, key)
  {
    if a == [] {
      assert a + b == b;
    } else {
      var x, rest := a[0], a[1..];
      var head := if Occurs(key, x) then [x] else [];
      assert Matching(a + b, key) == head + Matching(rest + b, key) by {
        assert a + b == [x] + (rest + b);
        MatchingCons(x, rest + b, key);
      }
      assert Matching(a, key) == head + Matching(rest, key) by {
        assert a == [x] + rest;
        MatchingCons(x, rest, key);
      }
      MatchingAppend(rest, b, key);
      ConcatAssoc(head, Matching(rest, key), Matching(b, key));
    }
  }

  lemma ConcatAssoc<T>(x: seq<T>, y: seq<T>, z: seq<T>)
    ensures x + (y + z) == (x + y) + z
  {
  }

  // ---------------------------------------------------------------------------
  // subset_model_filelist

  /** What one key contributes: its only matching file, or nothing when no file or
      more than one file matches. */
  function UniqueMatch(files: seq<string>, key: string): (r: seq<string>)
    ensures |r| <= 1
    ensures r != [] <==> MatchCount(files, key) == 1
    ensures forall f :: f in r ==> f in files && Occurs(key, f)
  {
    MatchingLength(files, key);
    var m := Matching(files, key);
    if |m| == 1 then [m[0]] else []
  }

  /** The files subset_model_filelist selects for the keys, key by key in order. */
  function ModelFiles(files: seq<string>, keys: seq<string>): seq<string>
  {
    if keys == [] then []
    else ModelFiles(files, keys[..|keys| - 1]) + UniqueMatch(files, keys[|keys| - 1])
  }

  method SubsetModelFilelist(allFiles: seq<string>, keys: seq<string>) returns (intervalFiles: seq<string>)
    ensures intervalFiles == ModelFiles(allFiles, keys)
  {
    intervalFiles := [];
    for k := 0 to |keys|
      invariant intervalFiles == ModelFiles(allFiles, keys[..k])
    {
      var flst := Matching(allFiles, keys[k]);
      if |flst| == 1 {
        intervalFiles := intervalFiles + [flst[0]];
      }
      assert keys[..k + 1][..k] == keys[..k];
    }
    assert keys[..|keys|] == keys;
  }

  /** At most one file per key. */
  lemma {:induction false} ModelFilesLength(files: seq<string>, keys: seq<string>)
    ensures |ModelFiles(files, keys)| <= |keys|
  {
    if keys != [] {
      ModelFilesLength(files, keys[..|keys| - 1]);
    }
  }

  /** Every selected file is listed and is the only listed file containing one of the keys. */
  lemma {:induction false} ModelFilesSound(files: seq<string>, keys: seq<string>)
    ensures forall f :: f in ModelFiles(files, keys) ==>
              f in files && exists k :: 0 <= k < |keys| && Occurs(keys[k], f) && MatchCount(files, keys[k]) == 1
  {
    if keys != [] {
      var init := keys[..|keys| - 1];
      ModelFilesSound(files, init);
      forall f | f in ModelFiles(files, keys)
        ensures f in files && exists k :: 0 <= k < |keys| && Occurs(keys[k], f) && MatchCount(files, keys[k]) == 1
      {
        if f in ModelFiles(files, init) {
          var k :| 0 <= k < |init| && Occurs(init[k], f) && MatchCount(files, init[k]) == 1;
          assert keys[k] == init[k];
        } else {
          assert f in UniqueMatch(files, keys[|keys| - 1]);
        }
      }
    }
  }

  /** A key matched by exactly one listed file contributes that file. */
  lemma {:induction false} ModelFilesComplete(files: seq<string>, keys: seq<string>, k: nat)
    requires k < |keys| && MatchCount(files, keys[k]) == 1
    ensures |Matching(files, keys[k])| == 1 && Matching(files, keys[k])[0] in ModelFiles(files, keys)
  {
    MatchingLength(files, keys[k]);
    var init := keys[..|keys| - 1];
    if k < |keys| - 1 {
      assert init[k] == keys[k];
      ModelFilesComplete(files, init, k);
    }
  }

  /** Selecting for two runs of keys one after the other is selecting for their concatenation. */
  lemma {:induction false} ModelFilesAppend(files: seq<string>, a: seq<string>, b: seq<string>)
    ensures ModelFiles(files, a + b) == ModelFiles(files, a) + ModelFiles(files, b)
    decreases |b|
  {
    if b == [] {
      assert a + b == a;
    } else {
      var bInit, last := b[..|b| - 1], UniqueMatch(files, b[|b| - 1]);
      assert (a + b)[..|a + b| - 1] == a + bInit;
      assert (a + b)[|a + b| - 1] == b[|b| - 1];
      assert ModelFiles(files, a + b) == ModelFiles(files, a + bInit) + last;
      ModelFilesAppend(files, a, bInit);
      assert ModelFiles(files, b) == ModelFiles(files, bInit) + last;
    }
  }

  // ---------------------------------------------------------------------------
  // subset_OMPS_l2

  /** The product-name prefix an OMPS nadir-mapper total-ozone level-2 file name
      carries before its date key. */
  const OmpsPrefix: string := "OMPS-NPP_NMTO3-L2_v2.1_"

  /** The files subset_OMPS_l2 selects for the date keys: for each key in order, every
      listed file containing the prefix followed by the key, in listing order. */
  function OmpsFiles(files: seq<string>, keys: seq<string>): seq<string>
  {
    if keys == [] then []
    else OmpsFiles(files, keys[..|keys| - 1]) + Matching(files, OmpsPrefix + keys[|keys| - 1])
  }

  method SubsetOmpsL2(allFiles: seq<string>, keys: seq<string>) returns (intervalFiles: seq<string>)
    ensures intervalFiles == OmpsFiles(allFiles, keys)
  {
    intervalFiles := [];
    for k := 0 to |keys|
      invariant intervalFiles == OmpsFiles(allFiles, keys[..k])
    {
      var fst := Matching(allFiles, OmpsPrefix + keys[k]);
      for m := 0 to |fst|
        invariant intervalFiles == OmpsFiles(allFiles, keys[..k]) + fst[..m]
      {
        intervalFiles := intervalFiles + [fst[m]];
        assert fst[..m + 1] == fst[..m] + [fst[m]];
      }
      assert fst[..|fst|] == fst;
      assert keys[..k + 1][..k] == keys[..k];
    }
    assert keys[..|keys|] == keys;
  }

  /** Total number of listed files matching each prefixed key, summed over the keys. */
  function TotalOmpsMatches(files: seq<string>, keys: seq<string>): nat
  {
    if keys == [] then 0 else MatchCount(files, OmpsPrefix + keys[0]) + TotalOmpsMatches(files, keys[1..])
  }

  lemma {:induction false} OmpsFilesAppend(files: seq<string>, a: seq<string>, b: seq<string>)
    ensures OmpsFiles(files, a + b) == OmpsFiles(files, a) + OmpsFiles(files, b)
    decreases |b|
  {
    if b == [] {
      assert a + b == a;
    } else {
      var bInit, last := b[..|b| - 1], Matching(files, OmpsPrefix + b[|b| - 1]);
      assert (a + b)[..|a + b| - 1] == a + bInit;
      assert (a + b)[|a + b| - 1] == b[|b| - 1];
      assert OmpsFiles(files, a + b) == OmpsFiles(files, a + bInit) + last;
      OmpsFilesAppend(files, a, bInit);
      assert OmpsFiles(files, b) == OmpsFiles(files, bInit) + last;
    }
  }

  /** No deduplication: the output holds one entry per (key, matching file) pair. */
  lemma {:induction false} OmpsFilesLength(files: seq<string>, keys: seq<string>)
    ensures |OmpsFiles(files, keys)| == TotalOmpsMatches(files, keys)
    decreases |keys|
  {
    if keys != [] {
      var rest := keys[1..];
      assert keys == [keys[0]] + rest;
      OmpsFilesAppend(files, [keys[0]], rest);
      assert OmpsFiles(files, [keys[0]]) == Matching(files, OmpsPrefix + keys[0]) by {
        assert [keys[0]][..0] == [];
      }
      MatchingLength(files, OmpsPrefix + keys[0]);
      OmpsFilesLength(files, rest);
    }
  }

  /** Every selected file is listed and contains the prefix followed by one of the keys. */
  lemma {:induction false} OmpsFilesSound(files: seq<string>, keys: seq<string>)
    ensures forall f :: f in OmpsFiles(files, keys) ==>
              f in files && exists k :: 0 <= k < |keys| && Occurs(OmpsPrefix + keys[k], f)
  {
    if keys != [] {
      var init := keys[..|keys| - 1];
      OmpsFilesSound(files, init);
      forall f | f in OmpsFiles(files, keys)
        ensures f in files && exists k :: 0 <= k < |keys| && Occurs(OmpsPrefix + keys[k], f)
      {
        if f in OmpsFiles(files, init) {
          var k :| 0 <= k < |init| && Occurs(OmpsPrefix + init[k], f);
          assert keys[k] == init[k];
        } else {
          assert f in Matching(files, OmpsPrefix + keys[|keys| - 1]);
        }
      }
    }
  }

  /** Every listed file containing the prefix followed by some key is selected. */
  lemma {:induction false} OmpsFilesComplete(files: seq<string>, keys: seq<string>, k: nat, f: string)
    requires k < |keys| && f in files && Occurs(OmpsPrefix + keys[k], f)
    ensures f in OmpsFiles(files, keys)
  {
    var init := keys[..|keys| - 1];
    if k < |keys| - 1 {
      assert init[k] == keys[k];
      OmpsFilesComplete(files, init, k, f);
    } else {
      MatchingMultiplicity(files, OmpsPrefix + keys[k], f);
      assert f in multiset(Matching(files, OmpsPrefix + keys[k]));
    }
  }
}

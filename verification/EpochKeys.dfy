/**
 Epoch keys: the text `dataset__epoch` under which the storage engine files an epoch, and the two ways
 it takes such a key apart again.
 */
module EpochKeys {
  function EpochKey(dataset: string, epoch: string): string { dataset + "__" + epoch }

  predicate SeparatorAt(s: string, i: int) { 0 <= i < |s| - 1 && s[i] == '_' && s[i + 1] == '_' }

  /** The part before the first separator: the first piece of splitting at `__`. */
  function FirstPart(s: string): (r: string)
    ensures r <= s
    ensures forall i :: 0 <= i < |r| ==> !SeparatorAt(s, i)
    ensures r == s || SeparatorAt(s, |r|)
  {
    if s == [] then s
    else if SeparatorAt(s, 0) then []
    else
      var r := FirstPart(s[1..]);
      assert forall i :: 1 <= i < 1 + |r| ==> (SeparatorAt(s, i) <==> SeparatorAt(s[1..], i - 1));
      [s[0]] + r
  }

  predicate StartsWith(s: string, prefix: string) { prefix <= s }

  /** A dataset id without separator that does not end in an underscore. */
  predicate Clean(dataset: string)
  {
    (forall i :: 0 <= i < |dataset| ==> !SeparatorAt(dataset, i)) && (dataset != [] ==> dataset[|dataset| - 1] != '_')
  }

  lemma FirstSeparator(dataset: string, epoch: string)
    ensures SeparatorAt(EpochKey(dataset, epoch), |dataset|)
    ensures Clean(dataset) <==> forall i :: 0 <= i < |dataset| ==> !SeparatorAt(EpochKey(dataset, epoch), i)
  {
    var key := EpochKey(dataset, epoch);
    forall i | 0 <= i < |dataset| - 1 ensures SeparatorAt(key, i) <==> SeparatorAt(dataset, i) {
      assert key[i] == dataset[i] && key[i + 1] == dataset[i + 1];
    }
    if dataset != [] {
      var n := |dataset| - 1;
      assert key[n] == dataset[n] && key[n + 1] == '_';
      assert SeparatorAt(key, n) <==> dataset[n] == '_';
    }
    if exists i :: SeparatorAt(dataset, i) {
      var i :| SeparatorAt(dataset, i);
      assert SeparatorAt(key, i);
    }
  }

  /** Splitting a key gives back the dataset id exactly for clean ids, whatever the epoch id is. */
  lemma FirstPartIff(dataset: string, epoch: string)
    ensures FirstPart(EpochKey(dataset, epoch)) == dataset <==> Clean(dataset)
  {
    var key := EpochKey(dataset, epoch);
    FirstSeparator(dataset, epoch);
    var r := FirstPart(key);
    assert dataset <= key;
    if Clean(dataset) {
      assert |r| == |dataset|;
    }
  }

  /** Keys of clean dataset ids are never confused. */
  lemma EpochKeyInjective(d1: string, e1: string, d2: string, e2: string)
    requires Clean(d1) && Clean(d2) && EpochKey(d1, e1) == EpochKey(d2, e2)
    ensures d1 == d2 && e1 == e2
  {
    FirstPartIff(d1, e1);
    FirstPartIff(d2, e2);
    assert e1 == EpochKey(d1, e1)[|d1| + 2..];
    assert e2 == EpochKey(d2, e2)[|d2| + 2..];
  }

  /** Matching by prefix selects the keys of a clean dataset among the keys of clean datasets. */
  lemma PrefixIff(d: string, dataset: string, epoch: string)
    requires Clean(d) && Clean(dataset)
    ensures StartsWith(EpochKey(dataset, epoch), d + "__") <==> d == dataset
  {
    var key := EpochKey(dataset, epoch);
    assert (dataset + "__") <= key;
    if StartsWith(key, d + "__") {
      var rest := key[|d| + 2..];
      assert key == EpochKey(d, rest);
      EpochKeyInjective(d, rest, dataset, epoch);
    }
  }

  /**
   The dataset id is safe from confusion with clean ids exactly when it is clean itself: prefix matching
   for it selects no epoch of another clean dataset.
   */
  lemma PrefixExactIff(d: string)
    ensures (forall dataset, epoch :: Clean(dataset) && StartsWith(EpochKey(dataset, epoch), d + "__") ==> d == dataset)
            <==> Clean(d)
  {
    if Clean(d) {
      forall dataset, epoch | Clean(dataset) && StartsWith(EpochKey(dataset, epoch), d + "__") ensures d == dataset {
        PrefixIff(d, dataset, epoch);
      }
    } else {
      var dataset, epoch := CleanPrefix(d, "");
      assert StartsWith(EpochKey(dataset, epoch), d + "__");
    }
  }

  /** What precedes the first separator of a key is a clean id, and the key is also one of that id. */
  lemma CleanPrefix(d: string, e: string) returns (dataset: string, epoch: string)
    ensures Clean(dataset) && EpochKey(dataset, epoch) == EpochKey(d, e)
  {
    var key := EpochKey(d, e);
    FirstSeparator(d, e);
    dataset := FirstPart(key);
    epoch := key[|dataset| + 2..];
    assert key == EpochKey(dataset, epoch);
    FirstPartIff(dataset, epoch);
  }

  /** A key determines the clean dataset it belongs to exactly for clean ids. */
  lemma EpochKeyExactIff(d: string)
    ensures (forall e, dataset, epoch :: Clean(dataset) && EpochKey(d, e) == EpochKey(dataset, epoch) ==> d == dataset)
            <==> Clean(d)
  {
    if Clean(d) {
      forall e, dataset, epoch | Clean(dataset) && EpochKey(d, e) == EpochKey(dataset, epoch) ensures d == dataset {
        EpochKeyInjective(d, e, dataset, epoch);
      }
    } else {
      var dataset, epoch := CleanPrefix(d, "");
      assert EpochKey(d, "") == EpochKey(dataset, epoch);
    }
  }

  /** Two datasets, clean or not, can share a key exactly when the id of one continues that of the other by `__`. */
  lemma SharedKeyIff(d1: string, d2: string)
    ensures (exists e1, e2 :: EpochKey(d1, e1) == EpochKey(d2, e2))
            <==> d1 + "__" <= d2 + "__" || d2 + "__" <= d1 + "__"
  {
    if e1, e2 :| EpochKey(d1, e1) == EpochKey(d2, e2) {
      var key := EpochKey(d1, e1);
      assert d1 + "__" <= key && d2 + "__" <= key;
    }
    if d1 + "__" <= d2 + "__" {
      Continues(d1, d2);
    }
    if d2 + "__" <= d1 + "__" {
      Continues(d2, d1);
    }
  }

  lemma Continues(d1: string, d2: string)
    requires d1 + "__" <= d2 + "__"
    ensures exists e1, e2 :: EpochKey(d1, e1) == EpochKey(d2, e2)
    ensures exists e1, e2 :: EpochKey(d2, e2) == EpochKey(d1, e1)
  {
    var rest := (d2 + "__")[|d1| + 2..];
    assert EpochKey(d1, rest) == d1 + "__" + rest == d2 + "__" == EpochKey(d2, "");
  }

  /** Without that condition a dataset also sees the epochs of a dataset whose id extends its own. */
  lemma PrefixConfusesDatasets()
    ensures StartsWith(EpochKey("a__b", "e"), "a" + "__")
    ensures EpochKey("a", "b__e") == EpochKey("a__b", "e")
  {
    assert EpochKey("a__b", "e") == "a__b__e" == ("a" + "__") + "b__e";
  }
}

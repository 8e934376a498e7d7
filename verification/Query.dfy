/** ORDER BY key LIMIT n over a finite table: what it may return, and a way to run it. */
module Query {
  import opened Prelude

  function SetOf<K(==)>(s: seq<K>): set<K> {
    set k | k in s
  }

  predicate Distinct<K(==)>(s: seq<K>) {
    forall i, j :: 0 <= i < j < |s| ==> s[i] != s[j]
  }

  /** picked holds limit keys of the table with the smallest values, in ascending order. */
  ghost predicate IsSmallest<K>(table: map<K, int>, limit: nat, picked: seq<K>) {
    && |picked| == Min(limit, |table|)
    && (forall i :: 0 <= i < |picked| ==> picked[i] in table)
    && (forall i, j :: 0 <= i < j < |picked| ==> picked[i] != picked[j] && table[picked[i]] <= table[picked[j]])
    && (forall i, k :: 0 <= i < |picked| && k in table && k !in picked ==> table[picked[i]] <= table[k])
  }

  method Smallest<K(==)>(table: map<K, int>) returns (key: K)
    requires table != map[]
    ensures key in table
    ensures forall k :: k in table ==> table[key] <= table[k]
  {
    key :| key in table;
    var pending := table.Keys - {key};
    while pending != {}
      invariant pending <= table.Keys && key in table
      invariant forall k :: k in table.Keys - pending ==> table[key] <= table[k]
      decreases pending
    {
      var k :| k in pending;
      if table[k] < table[key] {
        key := k;
      }
      pending := pending - {k};
    }
  }

  lemma {:induction false} DistinctSize<K>(picked: seq<K>)
    requires Distinct(picked)
    ensures |SetOf(picked)| == |picked|
  {
    if picked != [] {
      var n := |picked| - 1;
      DistinctSize(picked[..n]);
      assert SetOf(picked) == SetOf(picked[..n]) + {picked[n]} by {
        assert picked == picked[..n] + [picked[n]];
      }
    }
  }

  /** A full selection holds every key. */
  lemma AllPicked<K>(table: map<K, int>, limit: nat, picked: seq<K>)
    requires IsSmallest(table, limit, picked) && limit >= |table|
    ensures forall k :: k in table ==> k in picked
  {
    var keys := SetOf(picked);
    DistinctSize(picked);
    assert keys <= table.Keys && |table.Keys - keys| == |table.Keys| - |keys|;
    assert |table.Keys| == |table|;
    forall k | k in table ensures k in picked {
      assert k !in table.Keys - keys;
    }
  }

  method OrderBy<K(==)>(table: map<K, int>, limit: nat) returns (picked: seq<K>)
    ensures IsSmallest(table, limit, picked)
  {
    picked := [];
    var rest := table;
    while |picked| < limit && rest != map[]
      invariant |picked| <= limit && |rest| + |picked| == |table|
      invariant forall k :: k in rest ==> k in table && rest[k] == table[k]
      invariant forall k :: k in table ==> k in rest || k in picked
      invariant forall i :: 0 <= i < |picked| ==> picked[i] in table && picked[i] !in rest
      invariant forall i, j :: 0 <= i < j < |picked| ==> picked[i] != picked[j] && table[picked[i]] <= table[picked[j]]
      invariant forall i, k :: 0 <= i < |picked| && k in rest ==> table[picked[i]] <= table[k]
      decreases |rest|
    {
      var key := Smallest(rest);
      WithoutKey(rest, key);
      rest := rest - {key};
      picked := picked + [key];
    }
  }

  lemma WithoutKey<K, V>(table: map<K, V>, key: K)
    requires key in table
    ensures |table - {key}| == |table| - 1
  {
  }
}

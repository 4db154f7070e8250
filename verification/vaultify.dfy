/**
 * The `Vaultify` pipeline: it asks its provider for a bundle of secret
 * sets, refuses an empty bundle, folds the sets into one dictionary in
 * bundle order (a later set wins on a shared key), logs only a masked copy
 * of the bundle, and hands the unmasked dictionary to its consumer.
 */
module Pipeline {
  import opened Wrappers
  import opened Dicts
  import opened Trees
  import opened Masking

  /** A provider's bundle: secret-set name to its dictionary of secrets. */
  type Bundle = Dict<Dict<string>>

  /** What `get_secrets` returns: a bundle, or None. */
  datatype Response = Secrets(bundle: Bundle) | NoneReturned

  /** `not secrets`: None and the empty bundle are falsy. */
  predicate Empty(r: Response)
  {
    r.NoneReturned? || r.bundle == []
  }

  /** Every dictionary of a bundle has distinct keys, as Python dictionaries do. */
  predicate ValidBundle(b: Bundle)
  {
    Distinct(b) && forall i :: 0 <= i < |b| ==> Distinct(b[i].1)
  }

  datatype ValidationError =
    | ProviderError(message: string)
    | ConsumerError(message: string)

  /**
   * A provider as the pipeline sees it: whether it is a `Provider`, how it
   * prints, and the response `get_secrets` gives; `calls` counts the calls.
   */
  class Provider {
    const name: string
    const conforms: bool
    const response: Response
    ghost var calls: nat

    constructor(name: string, conforms: bool, response: Response)
      ensures this.name == name && this.conforms == conforms && this.response == response
      ensures calls == 0
    {
      this.name := name;
      this.conforms := conforms;
      this.response := response;
      calls := 0;
    }

    method GetSecrets() returns (r: Response)
      modifies this
      ensures r == response && calls == old(calls) + 1
    {
      r := response;
      calls := calls + 1;
    }
  }

  /**
   * A consumer as the pipeline sees it: whether it is a `Consumer`, how it
   * prints, and what `consume_secrets` returns (None for the writers); it
   * records every dictionary it receives.
   */
  class Consumer {
    const name: string
    const conforms: bool
    const answer: Option<bool>
    ghost var received: seq<Dict<string>>

    constructor(name: string, conforms: bool, answer: Option<bool>)
      ensures this.name == name && this.conforms == conforms && this.answer == answer
      ensures received == []
    {
      this.name := name;
      this.conforms := conforms;
      this.answer := answer;
      received := [];
    }

    method ConsumeSecrets(data: Dict<string>) returns (r: Option<bool>)
      modifies this
      ensures r == answer && received == old(received) + [data]
    {
      r := answer;
      received := received + [data];
    }
  }

  /** The bundle as the tree that `mask_secrets` receives. */
  function BundleTree(b: Bundle): (r: Dict<Tree>)
    ensures |r| == |b|
    ensures forall i :: 0 <= i < |b| ==> r[i].0 == b[i].0 && r[i].1.Map? && |r[i].1.entries| == |b[i].1|
    ensures forall i, j :: 0 <= i < |b| && 0 <= j < |b[i].1| ==>
      r[i].1.entries[j] == (b[i].1[j].0, Str(b[i].1[j].1))
  {
    seq(|b|, i requires 0 <= i < |b| =>
      (b[i].0, Map(seq(|b[i].1|, j requires 0 <= j < |b[i].1| => (b[i].1[j].0, Str(b[i].1[j].1))))))
  }

  /** The secret sets merged in bundle order, each `update` overriding the earlier ones. */
  function Aggregate(b: Bundle): Dict<string>
    decreases |b|
  {
    if b == [] then [] else Update(Aggregate(b[..|b| - 1]), b[|b| - 1].1)
  }

  /** The ValueError message of `run` for an empty bundle. */
  function NothingYielded(provider: string): string
  {
    "The provider did not yield anything: " + provider
  }

  /** `n` copies of `x`. */
  function Repeat<T>(x: T, n: nat): (r: seq<T>)
    ensures |r| == n && forall i :: 0 <= i < n ==> r[i] == x
    ensures n > 0 ==> r == Repeat(x, n - 1) + [x]
  {
    if n == 0 then [] else Repeat(x, n - 1) + [x]
  }

  lemma RepeatStep<T>(s: seq<T>, x: T, i: nat)
    ensures s + Repeat(x, i) + [x] == s + Repeat(x, i + 1)
  {
  }

  lemma AggregateStep(b: Bundle, i: nat)
    requires i < |b|
    ensures Aggregate(b[..i + 1]) == Update(Aggregate(b[..i]), b[i].1)
  {
    assert b[..i + 1][..i] == b[..i];
  }

  class Vaultify {
    const provider: Provider
    const consumer: Consumer
    /** The masked bundles logged while aggregating, one per secret set. */
    ghost var logged: seq<Dict<Tree>>

    constructor(provider: Provider, consumer: Consumer)
      ensures this.provider == provider && this.consumer == consumer && logged == []
    {
      this.provider := provider;
      this.consumer := consumer;
      logged := [];
    }

    /**
     * `validate`: never fails; a ProviderError when the provider is not a
     * `Provider`, then a ConsumerError when the consumer is not a `Consumer`.
     */
    method Validate() returns (results: seq<ValidationError>)
      ensures |results| == (if provider.conforms then 0 else 1) + (if consumer.conforms then 0 else 1)
      ensures results == [] <==> provider.conforms && consumer.conforms
      ensures !provider.conforms ==>
        results[0] == ProviderError("The Provider " + provider.name + " is not a Provider")
      ensures !consumer.conforms ==>
        results[|results| - 1] == ConsumerError("The Consumer " + consumer.name + " is not a Consumer")
    {
      results := [];
      if !provider.conforms {
        results := results + [ProviderError("The Provider " + provider.name + " is not a Provider")];
      }
      if !consumer.conforms {
        results := results + [ConsumerError("The Consumer " + consumer.name + " is not a Consumer")];
      }
    }

    method GetSecrets() returns (r: Response)
      modifies provider
      ensures r == provider.response && provider.calls == old(provider.calls) + 1
    {
      r := provider.GetSecrets();
    }

    method ConsumeSecrets(data: Dict<string>) returns (r: Option<bool>)
      modifies consumer
      ensures r == consumer.answer && consumer.received == old(consumer.received) + [data]
    {
      r := consumer.ConsumeSecrets(data);
    }

    /**
     * The loop of `run`: one `update` per secret set in bundle order,
     * logging the masked bundle each time.
     */
    method Collect(b: Bundle) returns (toConsumer: Dict<string>)
      requires ValidBundle(b)
      modifies this
      ensures toConsumer == Aggregate(b)
      ensures logged == old(logged) + Repeat(Masked(BundleTree(b)), |b|)
    {
      BundleTreeWellFormed(b);
      var tree := BundleTree(b);
      toConsumer := [];
      for i := 0 to |b|
        invariant toConsumer == Aggregate(b[..i])
        invariant logged == old(logged) + Repeat(Masked(tree), i)
      {
        var masked := MaskSecrets(tree);
        RepeatStep(old(logged), masked, i);
        logged := logged + [masked];
        AggregateStep(b, i);
        toConsumer := Update(toConsumer, b[i].1);
      }
      assert b[..|b|] == b;
    }

    /**
     * `run`: an empty bundle is refused before the consumer is called;
     * otherwise the consumer is called once, with the aggregate of the
     * bundle, and its answer is returned. Only masked copies are logged.
     */
    method Run() returns (r: Result<Option<bool>, string>)
      requires provider.response.Secrets? ==> ValidBundle(provider.response.bundle)
      modifies this, provider, consumer
      ensures provider.calls == old(provider.calls) + 1
      ensures Empty(provider.response) ==>
        && r == Err(NothingYielded(provider.name))
        && consumer.received == old(consumer.received)
        && logged == old(logged)
      ensures !Empty(provider.response) ==>
        var b := provider.response.bundle;
        && r == Ok(consumer.answer)
        && consumer.received == old(consumer.received) + [Aggregate(b)]
        && logged == old(logged) + Repeat(Masked(BundleTree(b)), |b|)
    {
      var secrets := GetSecrets();
      if Empty(secrets) {
        return Err(NothingYielded(provider.name));
      }
      var toConsumer := Collect(secrets.bundle);
      var answer := ConsumeSecrets(toConsumer);
      r := Ok(answer);
    }
  }

  /** The bundle's tree has distinct keys at every level. */
  lemma BundleTreeWellFormed(b: Bundle)
    requires ValidBundle(b)
    ensures WellFormedItems(BundleTree(b))
  {
    var t := BundleTree(b);
    forall i | 0 <= i < |t| ensures WellFormed(t[i].1) {
      SameKeys(b[i].1, t[i].1.entries);
    }
    SameKeys(b, t);
  }

  /** Two dictionaries with the same keys at every position: distinct together. */
  lemma {:induction false} SameKeys<U, V>(d: Dict<U>, e: Dict<V>)
    requires |d| == |e| && forall i :: 0 <= i < |d| ==> d[i].0 == e[i].0
    ensures Keys(d) == Keys(e)
    ensures Distinct(d) ==> Distinct(e)
  {
    if d != [] {
      SameKeys(d[1..], e[1..]);
    }
  }

  /** The keys handed to the consumer are the keys of all secret sets together. */
  lemma {:induction false} AggregateKeys(b: Bundle, k: string)
    ensures k in Keys(Aggregate(b)) <==> exists i :: 0 <= i < |b| && k in Keys(b[i].1)
    decreases |b|
  {
    if b != [] {
      var n := |b| - 1;
      AggregateKeys(b[..n], k);
      UpdateKeys(Aggregate(b[..n]), b[n].1);
      assert Keys(Aggregate(b)) == Keys(Aggregate(b[..n])) + Keys(b[n].1);
      assert forall i :: 0 <= i < n ==> b[..n][i] == b[i];
    }
  }

  /** A key's value comes from the last secret set, in bundle order, that has it. */
  lemma {:induction false} AggregateLastWins(b: Bundle, k: string, i: nat)
    requires i < |b| && Distinct(b[i].1) && k in Keys(b[i].1)
    requires forall j :: i < j < |b| ==> k !in Keys(b[j].1)
    ensures k in Keys(Aggregate(b)) && Get(Aggregate(b), k) == Get(b[i].1, k)
    decreases |b|
  {
    var n := |b| - 1;
    var prefix := b[..n];
    assert Aggregate(b) == Update(Aggregate(prefix), b[n].1);
    if i == n {
      UpdateGet(Aggregate(prefix), b[n].1, k);
    } else {
      assert prefix[i] == b[i];
      assert forall j :: i < j < |prefix| ==> prefix[j] == b[j];
      AggregateLastWins(prefix, k, i);
      assert k !in Keys(b[n].1);
      UpdateUntouched(Aggregate(prefix), b[n].1, k);
    }
  }

  /** The aggregate of a valid bundle is itself a dictionary with distinct keys. */
  lemma {:induction false} AggregateDistinct(b: Bundle)
    ensures Distinct(Aggregate(b))
    decreases |b|
  {
    if b != [] {
      AggregateDistinct(b[..|b| - 1]);
      DistinctUpdate(Aggregate(b[..|b| - 1]), b[|b| - 1].1);
    }
  }

  /** A bundle holding one empty set is not empty, and aggregates to the empty dictionary. */
  lemma OneEmptySet(name: string)
    ensures !Empty(Secrets([(name, [])]))
    ensures Aggregate([(name, [])]) == []
  {
    var b: Bundle := [(name, [])];
    assert b[..0] == [];
  }

  /**
   * Two sets sharing a key: the second set's value wins, and its new key
   * follows.
   */
  lemma AggregateTwo(n1: string, n2: string, k1: string, k2: string, v1: string, v2: string, v3: string)
    requires k1 != k2
    ensures Aggregate([(n1, [(k1, v1)]), (n2, [(k1, v2), (k2, v3)])]) == [(k1, v2), (k2, v3)]
  {
    var b := [(n1, [(k1, v1)]), (n2, [(k1, v2), (k2, v3)])];
    assert b[..1] == [(n1, [(k1, v1)])];
    assert b[..1][..0] == [];
    var e := [(k1, v2), (k2, v3)];
    assert e[..1] == [(k1, v2)] && e[..1][..0] == [];
    assert Aggregate(b[..1]) == [(k1, v1)] by {
      assert Update([], [(k1, v1)]) == Put([], k1, v1);
    }
    assert Update([(k1, v1)], e[..1]) == [(k1, v2)];
    assert Update([(k1, v1)], e) == Put([(k1, v2)], k2, v3);
  }

  /** The aggregation example of `run`: two files sharing the key A. */
  lemma AggregateExample()
    ensures Aggregate([("f1", [("A", "1")]), ("f2", [("A", "2"), ("B", "3")])]) == [("A", "2"), ("B", "3")]
  {
    AggregateTwo("f1", "f2", "A", "B", "1", "2", "3");
  }

  /** A dictionary of strings and its tree: the same keys, each value a str. */
  lemma {:induction false} GetStrs(d: Dict<string>, es: Dict<Tree>, k: string)
    requires |es| == |d| && forall j :: 0 <= j < |d| ==> es[j] == (d[j].0, Str(d[j].1))
    requires k in Keys(d)
    ensures k in Keys(es) && Get(es, k) == Str(Get(d, k))
  {
    if d[0].0 != k {
      GetStrs(d[1..], es[1..], k);
    }
  }

  /** In the bundle's tree, a set name and one of its keys lead to that secret. */
  lemma BundleTreeAt(b: Bundle, i: nat, k: string)
    requires ValidBundle(b) && i < |b| && k in Keys(b[i].1)
    ensures At(Map(BundleTree(b)), [b[i].0, k]) == Some(Str(Get(b[i].1, k)))
  {
    var t := BundleTree(b);
    SameKeys(b, t);
    GetOfDistinct(t, i);
    GetStrs(b[i].1, t[i].1.entries, k);
    var p := [b[i].0, k];
    assert p[1..] == [k] && [k][1..] == [];
    assert At(Map(t), p) == At(t[i].1, [k]);
    assert At(t[i].1, [k]) == Some(Get(t[i].1.entries, k));
  }

  /**
   * What is logged never shows a secret: in the masked bundle every secret,
   * reached by its set name and key, reads "***".
   */
  lemma LoggedRedacted(b: Bundle, i: nat, k: string)
    requires ValidBundle(b) && i < |b| && k in Keys(b[i].1)
    ensures At(Map(Masked(BundleTree(b))), [b[i].0, k]) == Some(Str(Redacted))
  {
    BundleTreeAt(b, i, k);
    MaskAt(Map(BundleTree(b)), [b[i].0, k]);
  }
}

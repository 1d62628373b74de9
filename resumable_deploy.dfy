/**
 * The restart-safe deployment state machine of `resumeOrDeploy` and the two
 * event lookups that depend on the transaction hash it saves
 * (scripts/utils/index.js).
 *
 * The deployment cache is an external key/value store; it is modelled as a
 * `Store` object whose `entries` map the methods update in place. The source
 * reaches it through `cache?.`, so a null store reads as empty and ignores
 * writes. The deploy action and the chain are parameters: a `Submission`
 * says what calling the deploy action does, and a map from transaction hash
 * to `Receipt` stands for the chain's `getTransaction(...).wait()`.
 */
module ResumableDeploy {
  import opened Wrappers

  /** The external key/value deployment cache. */
  class Store {
    var entries: map<string, string>

    constructor (initial: map<string, string>)
      ensures entries == initial
    {
      entries := initial;
    }

    /** `cache.get(key)`: the stored value, absent when the key was never set. */
    method Get(key: string) returns (v: Option<string>)
      ensures v == Lookup(Some(entries), key)
    {
      v := if key in entries then Some(entries[key]) else None;
    }

    /** `cache.set(key, value)`: last write wins, no other key changes. */
    method Set(key: string, value: string)
      modifies this
      ensures entries == old(entries)[key := value]
    {
      entries := entries[key := value];
    }
  }

  /** A mined transaction's receipt. */
  datatype Receipt = Receipt(contractAddress: string, blockNumber: int)

  /**
   * What calling the deploy action does: the submission itself fails, or a
   * transaction with `hash` is submitted and `confirmed` is the deployed
   * address once `deployed()` resolves (None when confirmation fails, for
   * instance because the process is interrupted).
   */
  datatype Submission = SubmitFailed | Submitted(hash: string, confirmed: Option<string>)

  datatype DeployError =
    | DeployActionFailed
    | ConfirmationFailed(hash: string)
    | UnknownTransaction(hash: string)

  /** The observable effect of one `resumeOrDeploy` call. */
  datatype Outcome = Outcome(result: Result<string, DeployError>, store: Option<map<string, string>>, deployed: bool)

  function PendingKey(key: string): string { key + "-pending" }

  function AddressKey(key: string): string { key + ".address" }

  /** A read through `cache?.get(k)`: absent when there is no cache or no entry. */
  function Lookup(store: Option<map<string, string>>, k: string): Option<string>
  {
    if store.Some? && k in store.value then Some(store.value[k]) else None
  }

  /** A write through `cache?.set(k, v)`: skipped when there is no cache. */
  function Write(store: Option<map<string, string>>, k: string, v: string): Option<map<string, string>>
  {
    if store.Some? then Some(store.value[k := v]) else None
  }

  /** JavaScript truthiness of a string that may be `undefined`: the empty string is falsy. */
  predicate Truthy(v: Option<string>)
  {
    v.Some? && v.value != ""
  }

  lemma PendingAndAddressKeysDiffer(key: string)
    ensures PendingKey(key) != AddressKey(key)
  {
    assert PendingKey(key)[|key|] == '-';
    assert AddressKey(key)[|key|] == '.';
  }

  /**
   * The effect of `resumeOrDeploy(cache, key, deploy)`: the result, the cache
   * afterwards and whether the deploy action was invoked.
   */
  function Resume(store: Option<map<string, string>>, key: string, submission: Submission,
                  chain: map<string, Receipt>): (o: Outcome)
    // the deploy action is invoked exactly when neither entry is truthy
    ensures o.deployed <==> !Truthy(Lookup(store, PendingKey(key))) && !Truthy(Lookup(store, AddressKey(key)))
    // a missing cache stays missing; otherwise only the two keys of `key` can change
    ensures o.store.Some? <==> store.Some?
    ensures forall k :: k != PendingKey(key) && k != AddressKey(key) ==> Lookup(o.store, k) == Lookup(store, k)
    // fresh deployment: the hash is saved before confirmation, then the confirmed address
    ensures o.deployed && submission.Submitted? ==>
              && Lookup(o.store, PendingKey(key)) == (if store.Some? then Some(submission.hash) else None)
              && (submission.confirmed.Some? ==> o.result == Success(submission.confirmed.value))
              && (submission.confirmed.None? ==> o.result == Failure(ConfirmationFailed(submission.hash)))
    ensures o.deployed && submission.SubmitFailed? ==> o.result == Failure(DeployActionFailed) && o.store == store
    // pending only: the address comes from the saved transaction's receipt
    ensures !o.deployed && !Truthy(Lookup(store, AddressKey(key))) ==>
              var h := Lookup(store, PendingKey(key)).value;
              o.result == (if h in chain then Success(chain[h].contractAddress) else Failure(UnknownTransaction(h)))
    // already complete: the cached address is returned and the cache is unchanged
    ensures Truthy(Lookup(store, AddressKey(key))) ==>
              o.result == Success(Lookup(store, AddressKey(key)).value) && o.store == store
    // every successful call leaves the returned address cached
    ensures o.result.Success? && store.Some? ==> Lookup(o.store, AddressKey(key)) == Some(o.result.value)
    // the lifecycle never goes backwards: a failure other than an unconfirmed fresh submission
    // leaves the cache as it was, no failure touches `<key>.address`, and only a fresh
    // deployment writes `<key>-pending`
    ensures o.result.Failure? && !(o.deployed && submission.Submitted?) ==> o.store == store
    ensures o.result.Failure? ==> Lookup(o.store, AddressKey(key)) == Lookup(store, AddressKey(key))
    ensures !o.deployed ==> Lookup(o.store, PendingKey(key)) == Lookup(store, PendingKey(key))
  {
    PendingAndAddressKeysDiffer(key);
    var txHash := Lookup(store, PendingKey(key));
    var address := Lookup(store, AddressKey(key));
    if !Truthy(txHash) && !Truthy(address) then
      match submission
      case SubmitFailed => Outcome(Failure(DeployActionFailed), store, true)
      case Submitted(hash, confirmed) =>
        var saved := Write(store, PendingKey(key), hash);
        if confirmed.None? then Outcome(Failure(ConfirmationFailed(hash)), saved, true)
        else Outcome(Success(confirmed.value), Write(saved, AddressKey(key), confirmed.value), true)
    else if !Truthy(address) then
      if txHash.value in chain then
        var a := chain[txHash.value].contractAddress;
        Outcome(Success(a), Write(store, AddressKey(key), a), false)
      else Outcome(Failure(UnknownTransaction(txHash.value)), store, false)
    else
      assert store.value[AddressKey(key) := address.value] == store.value;
      Outcome(Success(address.value), Write(store, AddressKey(key), address.value), false)
  }

  /**
   * `resumeOrDeploy(cache, key, deploy)`, step by step: read both entries,
   * deploy and save the hash before confirmation, or recover the address from
   * the saved transaction, then rewrite `<key>.address`.
   */
  method ResumeOrDeploy(cache: Store?, key: string, submission: Submission, chain: map<string, Receipt>)
    returns (r: Result<string, DeployError>, deployed: bool)
    modifies cache
    ensures var o := Resume(if cache == null then None else Some(old(cache.entries)), key, submission, chain);
            r == o.result && deployed == o.deployed && (cache != null ==> o.store == Some(cache.entries))
  {
    ghost var store := if cache == null then None else Some(cache.entries);
    var txHash: Option<string> := None;
    var address: Option<string> := None;
    if cache != null {
      txHash := cache.Get(PendingKey(key));
      address := cache.Get(AddressKey(key));
    }
    deployed := false;
    if !Truthy(txHash) && !Truthy(address) {
      deployed := true;
      match submission
      case SubmitFailed =>
        r := Failure(DeployActionFailed);
        return;
      case Submitted(hash, confirmed) =>
        txHash := Some(hash);
        if cache != null {
          cache.Set(PendingKey(key), hash);
        }
        if confirmed.None? {
          r := Failure(ConfirmationFailed(hash));
          return;
        }
        address := confirmed;
    } else if !Truthy(address) {
      if txHash.value !in chain {
        r := Failure(UnknownTransaction(txHash.value));
        return;
      }
      address := Some(chain[txHash.value].contractAddress);
    }
    if cache != null {
      cache.Set(AddressKey(key), address.value);
    }
    r := Success(address.value);
  }

  /**
   * Idempotent resumption: after a call that returned a non-empty address,
   * a second call returns the same address, invokes neither the deploy
   * action nor the chain, and leaves the cache as it was.
   */
  lemma SecondCallReturnsSameAddress(store: map<string, string>, key: string, s1: Submission,
                                     c1: map<string, Receipt>, s2: Submission, c2: map<string, Receipt>)
    requires Resume(Some(store), key, s1, c1).result.Success?
    requires Resume(Some(store), key, s1, c1).result.value != ""
    ensures var first := Resume(Some(store), key, s1, c1);
            var second := Resume(first.store, key, s2, c2);
            second.result == first.result && !second.deployed && second.store == first.store
  {
  }

  /**
   * Crash-after-submit recovery: when the first call saved the hash but its
   * confirmation failed, a later call recovers the address from the receipt
   * of that same transaction without deploying again.
   */
  lemma RecoversAfterInterruptedConfirmation(store: map<string, string>, key: string, hash: string,
                                             s2: Submission, chain: map<string, Receipt>)
    requires !Truthy(Lookup(Some(store), PendingKey(key))) && !Truthy(Lookup(Some(store), AddressKey(key)))
    requires hash != "" && hash in chain
    ensures var first := Resume(Some(store), key, Submitted(hash, None), chain);
            var second := Resume(first.store, key, s2, chain);
            first.result.Failure? && first.deployed
            && !second.deployed && second.result == Success(chain[hash].contractAddress)
            && Lookup(second.store, AddressKey(key)) == Some(chain[hash].contractAddress)
  {
    PendingAndAddressKeysDiffer(key);
  }

  /** Without a cache there is no resumability: every call invokes the deploy action. */
  lemma NoCacheAlwaysDeploys(key: string, submission: Submission, chain: map<string, Receipt>)
    ensures Resume(None, key, submission, chain).deployed
    ensures Resume(None, key, submission, chain).store == None
  {
  }

  /** The example of a fresh deployment into an empty cache. */
  lemma FreshDeploymentExample(chain: map<string, Receipt>)
    ensures Resume(Some(map[]), "token", Submitted("0xAA", Some("0xBEEF")), chain)
            == Outcome(Success("0xBEEF"), Some(map["token-pending" := "0xAA", "token.address" := "0xBEEF"]), true)
  {
    assert PendingKey("token") == "token-pending";
    assert AddressKey("token") == "token.address";
  }

  /*
   * Event lookups anchored at the deployment transaction.
   */

  /**
   * `NoCache` stands for the TypeError that `cache.get` raises on a null
   * cache; `DeploymentTransactionNotSaved(key)` is the error
   * "`key` deployment transaction not saved".
   */
  datatype EventError = NoCache | DeploymentTransactionNotSaved(key: string)

  /**
   * `getEventsFromTx`: the logs matching `filter` from the transaction's block
   * up to the latest block, or none when the chain has no receipt for it.
   */
  function EventsFromTx<F, L>(txHash: string, filter: F, chain: map<string, Receipt>, latest: int,
                              queryFilter: (F, int, int) -> seq<L>): (logs: seq<L>)
    ensures txHash !in chain ==> logs == []
    ensures txHash in chain ==> logs == queryFilter(filter, chain[txHash].blockNumber, latest)
  {
    if txHash !in chain then [] else queryFilter(filter, chain[txHash].blockNumber, latest)
  }

  /**
   * `getEventsFromContractCreation`: fails when no truthy `<key>-pending`
   * hash was saved, otherwise the events of that transaction. The source
   * calls `cache.get` without `?.`, so a null cache is an error too.
   */
  function EventsFromContractCreation<F, L>(cache: Store?, key: string, filter: F, chain: map<string, Receipt>,
                                            latest: int, queryFilter: (F, int, int) -> seq<L>)
    : (r: Result<seq<L>, EventError>)
    reads cache
    ensures cache == null ==> r == Failure(NoCache)
    ensures cache != null ==>
              (r == Failure(DeploymentTransactionNotSaved(key)) <==> !Truthy(Lookup(Some(cache.entries), PendingKey(key))))
    ensures cache != null && Truthy(Lookup(Some(cache.entries), PendingKey(key))) ==>
              r == Success(EventsFromTx(cache.entries[PendingKey(key)], filter, chain, latest, queryFilter))
  {
    if cache == null then Failure(NoCache)
    else
      var txHash := Lookup(Some(cache.entries), PendingKey(key));
      if !Truthy(txHash) then Failure(DeploymentTransactionNotSaved(key))
      else Success(EventsFromTx(txHash.value, filter, chain, latest, queryFilter))
  }
}

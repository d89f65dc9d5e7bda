/**
 * The API import adapter: a base adapter whose appended txns are marked
 * synced, and whose `commit!` checks the balance currencies, publishes the
 * pending txns with the sync data and balances, then clears them.
 */
module ApiAdapters {
  import opened Wrappers
  import opened Values
  import opened TxnModel
  import opened TxnErrors
  import opened BaseAdapters

  /** One balance value: a hash (with perhaps a `:currency` entry) or any other value. */
  datatype BalanceValue = BalanceHash(entries: map<string, Value>) | BalanceScalar(value: Value)

  /** A balance entry: its key, rendered with `to_s`, and its value. */
  type Balance = (string, BalanceValue)

  /** What `commit!` publishes; `txns` stands for the serialised pending txns, in order. */
  datatype ApiPayload = ApiPayload(
    id: Value,
    walletId: Value,
    startedAt: int,
    finishedAt: int,
    txns: seq<Txn>,
    error: Value,
    apiSyncdata: Option<map<string, Value>>,
    apiBalances: Option<seq<Balance>>,
    version: Value,
    config: Option<map<string, Value>>)

  /** An optional argument: left out by the caller, or passed (possibly as nil). */
  datatype Arg<T> = Omitted | Passed(arg: T)

  /** Whether the balance's currency is checked: a hash with a present `:currency`. */
  predicate ChecksCurrency(v: BalanceValue) {
    v.BalanceHash? && !ValueBlank(Get(v.entries, "currency"))
  }

  /** A balance passes when its currency is not checked or is valid. */
  predicate BalanceOk(b: Balance) {
    ChecksCurrency(b.1) ==> ValidCurrency(Get(b.1.entries, "currency"))
  }

  /** The key of the first balance, from index `i` on, that fails the check. */
  function FirstInvalidBalanceFrom(balances: seq<Balance>, i: nat): (r: Option<string>)
    requires i <= |balances|
    ensures r.None? <==> forall j :: i <= j < |balances| ==> BalanceOk(balances[j])
    ensures r.Some? ==> exists j :: i <= j < |balances| && !BalanceOk(balances[j]) && balances[j].0 == r.value
                                     && forall k :: i <= k < j ==> BalanceOk(balances[k])
    decreases |balances| - i
  {
    if i == |balances| then None
    else if !BalanceOk(balances[i]) then Some(balances[i].0)
    else FirstInvalidBalanceFrom(balances, i + 1)
  }

  /** The balance after its currency was checked: the `:valid` marker deleted. */
  function StripBalance(b: Balance): (r: Balance)
    ensures r.0 == b.0
    ensures !ChecksCurrency(b.1) ==> r == b
    ensures ChecksCurrency(b.1) ==> r.1 == BalanceHash(b.1.entries["currency" := StripValid(Get(b.1.entries, "currency"))])
  {
    if ChecksCurrency(b.1) then (b.0, BalanceHash(b.1.entries["currency" := StripValid(b.1.entries["currency"])]))
    else b
  }

  /** Every balance with its marker deleted, in order. */
  function StripBalances(balances: seq<Balance>): (r: seq<Balance>)
    ensures |r| == |balances| && forall i :: 0 <= i < |balances| ==> r[i] == StripBalance(balances[i])
  {
    seq(|balances|, i requires 0 <= i < |balances| => StripBalance(balances[i]))
  }

  /** The balances a successful `commit!` publishes: none when none were given. */
  function Published(balances: Option<seq<Balance>>): (r: Option<seq<Balance>>)
    ensures r.Some? <==> balances.Some?
    ensures balances.Some? ==> |r.value| == |balances.value| && forall i :: 0 <= i < |balances.value| ==> r.value[i].0 == balances.value[i].0
  {
    if balances.Some? then Some(StripBalances(balances.value)) else None
  }

  function InvalidBalanceMessage(key: string): string {
    key + " is not a valid currency for balances - ensure it was built with build_currency!"
  }

  /** `api_syncdata&.dig('version')`. */
  function VersionOf(syncdata: Option<map<string, Value>>): (r: Value)
    ensures syncdata.None? ==> r == Nil
    ensures syncdata.Some? ==> r == Get(syncdata.value, "version")
  {
    match syncdata
    case None => Nil
    case Some(m) => Get(m, "version")
  }

  /**
   * The `config` argument as published: `{}` when the caller leaves it out,
   * and exactly what was passed otherwise, so an explicit nil stays nil.
   */
  function ConfigOrDefault(config: Arg<Option<map<string, Value>>>): (r: Option<map<string, Value>>)
    ensures config.Omitted? ==> r == Some(map[])
    ensures config.Passed? ==> r == config.arg
  {
    match config
    case Omitted => Some(map[])
    case Passed(c) => c
  }

  class ApiAdapter {
    /** The base adapter this one extends; its `add_txn` marks txns synced. */
    const base: BaseAdapter
    const walletId: Value
    const beforeApiOptionsCommit: Value

    predicate Valid()
      reads this, base
    {
      base.Valid() && base.marksSynced
    }

    /** `initialize(options)`: the base adapter's settings plus `wallet_id`. */
    constructor (options: map<string, Value>, now: int, testEnv: bool, env: TxnEnv, toDateTime: Value -> Option<int>)
      ensures Valid() && fresh(base)
      ensures base.pendingTxns == [] && base.uniqHashes == map[]
      ensures base.requestId == Get(options, "request_id") && base.initializedAt == now
      ensures walletId == Get(options, "wallet_id")
      ensures beforeApiOptionsCommit == Get(options, "before_api_options_commit")
    {
      base := new BaseAdapter(options, now, testEnv, true, env, toDateTime);
      walletId := Get(options, "wallet_id");
      beforeApiOptionsCommit := Get(options, "before_api_options_commit");
    }

    /** The balance check of `commit!`: the first failing balance key, with the checked balances stripped. */
    static method CheckBalances(balances: seq<Balance>) returns (bad: Option<string>, checked: seq<Balance>)
      ensures bad == FirstInvalidBalanceFrom(balances, 0)
      ensures bad.None? ==> checked == StripBalances(balances)
    {
      checked := [];
      var i := 0;
      while i < |balances|
        invariant 0 <= i <= |balances|
        invariant FirstInvalidBalanceFrom(balances, i) == FirstInvalidBalanceFrom(balances, 0)
        invariant |checked| == i && forall j :: 0 <= j < i ==> checked[j] == StripBalance(balances[j])
      {
        var (key, value) := balances[i];
        if value.BalanceHash? && !ValueBlank(Get(value.entries, "currency")) {
          if !ValidCurrency(Get(value.entries, "currency")) {
            return Some(key), checked;
          }
        }
        checked := checked + [StripBalance(balances[i])];
        i := i + 1;
      }
      return None, checked;
    }

    /**
     * `commit!(api_syncdata, api_balances, error, config)`: a hash balance
     * whose currency was not built by `build_currency` raises before
     * anything is published or cleared; otherwise the payload carries the
     * pending txns in order (all synced), the balances with their markers
     * deleted, the sync data's version and the config (`{}` when omitted, nil when nil is passed),
     * and the pending list is then empty.
     */
    method Commit(syncdata: Option<map<string, Value>>, balances: Option<seq<Balance>>, error: Value,
                  config: Arg<Option<map<string, Value>>>, now: int) returns (r: Result<ApiPayload, TxnError>)
      requires Valid()
      modifies base
      ensures Valid()
      ensures balances.Some? && FirstInvalidBalanceFrom(balances.value, 0).Some? ==>
                && r == Failure(NewTxnError(MessageSource(InvalidBalanceMessage(FirstInvalidBalanceFrom(balances.value, 0).value))))
                && base.pendingTxns == old(base.pendingTxns)
      ensures (balances.None? || FirstInvalidBalanceFrom(balances.value, 0).None?) ==>
                && r.Success?
                && r.value.txns == old(base.pendingTxns)
                && (forall i :: 0 <= i < |r.value.txns| ==> r.value.txns[i].synced)
                && r.value == ApiPayload(base.requestId, walletId, base.initializedAt, now, old(base.pendingTxns), error,
                                         syncdata, Published(balances), VersionOf(syncdata), ConfigOrDefault(config))
                && base.pendingTxns == []
      ensures base.uniqHashes == old(base.uniqHashes)
      ensures base.hardStartDate == old(base.hardStartDate) && base.softStartDate == old(base.softStartDate)
    {
      var published: Option<seq<Balance>> := None;
      if balances.Some? {
        var bad, checked := CheckBalances(balances.value);
        if bad.Some? {
          return Failure(NewTxnError(MessageSource(InvalidBalanceMessage(bad.value))));
        }
        published := Some(checked);
      }
      var txns := base.ClearPending();
      var payload := ApiPayload(base.requestId, walletId, base.initializedAt, now, txns, error,
                                syncdata, published, VersionOf(syncdata), ConfigOrDefault(config));
      return Success(payload);
    }
  }
}

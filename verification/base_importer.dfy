/**
 * The helpers every API importer inherits: scaling integer amounts by a
 * token's decimals, the required-options validation, the start-date skip
 * rules, the list of known markets kept between syncs, the importer's tag
 * and the removal of nil balances before they are committed.
 */
module BaseImporters {
  import opened Wrappers
  import opened Text
  import opened Decimal
  import opened Values
  import opened ApiAdapters
  import opened Enumerables

  // ---------------------------------------------------------------- decimalize

  /**
   * `decimalize(amount, decimals)`: the amount divided by ten to the
   * decimals, the decimals clamped to 0..1000, rounded to 10 places.
   */
  function Decimalize(amount: real, decimals: int): real {
    RoundHalfUp(amount / Pow10(ClampInt(decimals, 0, 1000)) as real, 10)
  }

  /** Negative decimals count as none, and more than 1000 as 1000. */
  lemma DecimalizeClamps(amount: real, decimals: int)
    ensures decimals < 0 ==> Decimalize(amount, decimals) == Decimalize(amount, 0)
    ensures decimals > 1000 ==> Decimalize(amount, decimals) == Decimalize(amount, 1000)
  {
  }

  /** An integer amount with at most 10 decimals is scaled exactly: nothing is lost to rounding. */
  lemma {:induction false} DecimalizeExact(amount: int, decimals: nat)
    requires decimals <= 10
    ensures Decimalize(amount as real, decimals) == amount as real / Pow10(decimals) as real
  {
    var p := Pow10(decimals);
    var q := Pow10(10 - decimals);
    Pow10Add(decimals, 10 - decimals);
    CancelFactor(amount, p, q);
    RoundExact(amount * q, 10);
  }

  /** A common positive factor cancels from an integer quotient taken over the reals. */
  lemma CancelFactor(a: int, p: int, q: int)
    requires p > 0 && q > 0
    ensures (a * q) as real / (p * q) as real == a as real / p as real
  {
    assert (a * q) as real == a as real * q as real;
    assert (p * q) as real == p as real * q as real;
  }

  /** Ten to the decimals base units make one whole unit. */
  lemma DecimalizeWholeUnit(decimals: nat)
    requires decimals <= 10
    ensures Decimalize(Pow10(decimals) as real, decimals) == 1.0
  {
    DecimalizeExact(Pow10(decimals), decimals);
    DivSelf(Pow10(decimals) as real);
  }

  lemma DivSelf(p: real)
    requires p > 0.0
    ensures p / p == 1.0
  {
  }

  /** The example beside `decimalize` applies it to 10^7 at 8 decimals, which yields 0.1 and not 1. */
  lemma DecimalizeCommentExample()
    ensures Decimalize(10000000.0, 8) == 0.1
    ensures Decimalize(10000000.0, 8) != 1.0
    ensures Decimalize(100000000.0, 8) == 1.0
  {
    assert Pow10(8) == 100000000;
    DecimalizeExact(10000000, 8);
    DecimalizeWholeUnit(8);
  }

  // ---------------------------------------------------------------- required options

  /**
   * `ensure_required_options_present`: no error when every required option
   * is given, otherwise the one error naming the missing ones.
   */
  function RequiredOptionsError(required: seq<string>, options: map<string, Value>): (r: Option<string>)
    ensures r.None? <==> forall o :: o in required ==> o in options
    ensures r.Some? ==> r.value == "missing required fields: " + Join(MissingOptions(required, options), ", ")
  {
    var missing := MissingOptions(required, options);
    if missing != [] then
      assert missing[0] in missing;
      Some("missing required fields: " + Join(missing, ", "))
    else None
  }

  /**
   * `required - options.keys` is `select` of the names not given: the missing
   * names keep their order and repeats (`SelectAppend`, `SelectCount`).
   */
  lemma {:induction false} MissingOptionsAreSelected(required: seq<string>, opts: map<string, Value>)
    ensures MissingOptions(required, opts) == Select(required, o => o !in opts)
  {
    if required != [] {
      var notGiven := o => o !in opts;
      MissingOptionsAreSelected(required[1..], opts);
      assert required == [required[0]] + required[1..];
      SelectAppend([required[0]], required[1..], notGiven);
      SelectOne(required[0], notGiven);
    }
  }

  // ---------------------------------------------------------------- start dates

  /**
   * `skip_txn?(date)` and `skip_trade?(date)`: true when the start-date
   * option is present and the time it parses to is strictly later than the
   * txn's date. A present option that does not parse raises, and so does
   * comparing the parsed time with a nil date.
   */
  function StartsAfter(option: Value, parse: Value -> Option<int>, date: Option<int>): (r: Result<bool, string>)
    ensures r.Failure? <==> !ValueBlank(option) && (parse(option).None? || date.None?)
    ensures r == Success(true) <==> !ValueBlank(option) && parse(option).Some? && date.Some? && parse(option).value > date.value
  {
    if ValueBlank(option) then Success(false)
    else match parse(option)
      case None => Failure("ArgumentError: no time information")
      case Some(start) =>
        if date.None? then Failure("ArgumentError: comparison of Time with nil failed")
        else Success(start > date.value)
  }

  /** A txn dated exactly at the start date, or with no start date set, is kept. */
  lemma StartDateIsKept(option: Value, parse: Value -> Option<int>, date: Option<int>)
    ensures ValueBlank(option) ==> StartsAfter(option, parse, date) == Success(false)
    ensures date.Some? && parse(option) == date ==> StartsAfter(option, parse, date) == Success(false)
  {
  }

  /** A nil date is only safe while no start date is set: with a parsable option it raises. */
  lemma NilDateRaises(option: Value, parse: Value -> Option<int>)
    ensures StartsAfter(option, parse, None).Success? <==> ValueBlank(option)
  {
  }

  // ---------------------------------------------------------------- known markets

  /** A known-markets list as `add_known_market` keeps it: no nil and no market twice. */
  predicate MarketsOk(markets: seq<Value>) {
    && (forall i :: 0 <= i < |markets| ==> markets[i] != Nil)
    && (forall i, j :: 0 <= i < j < |markets| ==> markets[i] != markets[j])
  }

  /** The list after `add_known_market(market)`; the metadata is nil until the first market is added. */
  function WithMarket(known: Option<seq<Value>>, market: Value): (r: Option<seq<Value>>)
    ensures market == Nil || (known.Some? && market in known.value) ==> r == known
    ensures market != Nil && !(known.Some? && market in known.value) ==> r == Some(known.GetOr([]) + [market])
  {
    if market == Nil || (known.Some? && market in known.value) then known
    else Some(known.GetOr([]) + [market])
  }

  /** Adding a market keeps the list free of nil and of repeats, and the market is then known. */
  lemma WithMarketKeepsOk(known: Option<seq<Value>>, market: Value)
    requires known.Some? ==> MarketsOk(known.value)
    ensures var r := WithMarket(known, market);
            && (r.Some? ==> MarketsOk(r.value))
            && (market != Nil ==> r.Some? && market in r.value)
  {
  }

  /** Adding the same market twice is adding it once. */
  lemma WithMarketIdempotent(known: Option<seq<Value>>, market: Value)
    ensures WithMarket(WithMarket(known, market), market) == WithMarket(known, market)
  {
    if market != Nil && !(known.Some? && market in known.value) {
      var r := known.GetOr([]) + [market];
      assert r[|r| - 1] == market;
    }
  }

  // ---------------------------------------------------------------- the tag

  predicate IsUpperChar(c: char) { 'A' <= c <= 'Z' }
  predicate IsLowerChar(c: char) { 'a' <= c <= 'z' }
  predicate IsDigitChar(c: char) { '0' <= c <= '9' }

  /**
   * `underscore` puts a `_` before a capital that follows a lower-case
   * letter or a digit, and before the last capital of a run of capitals
   * (or digits) when a lower-case letter follows it.
   */
  predicate BreaksBefore(s: string, i: int)
    requires 0 < i < |s|
  {
    IsUpperChar(s[i]) &&
    (IsLowerChar(s[i - 1]) || IsDigitChar(s[i - 1]) ||
     ((IsUpperChar(s[i - 1]) || IsDigitChar(s[i - 1])) && i + 1 < |s| && IsLowerChar(s[i + 1])))
  }

  /** The underscored form of `s[i..]`. */
  function UnderscoreFrom(s: string, i: nat): (r: string)
    requires i <= |s|
    ensures |r| >= |s| - i
    ensures forall k :: 0 <= k < |r| ==> !IsUpperChar(r[k])
    decreases |s| - i
  {
    if i == |s| then ""
    else (if i > 0 && BreaksBefore(s, i) then "_" else "") + [LowerChar(s[i])] + UnderscoreFrom(s, i + 1)
  }

  /** `String#underscore` on a class name without a namespace: snake case, all lower case. */
  function Underscore(s: string): (r: string)
    ensures |r| >= |s|
    ensures forall k :: 0 <= k < |r| ==> !IsUpperChar(r[k])
  {
    UnderscoreFrom(s, 0)
  }

  /** How many `_` `underscore` inserts among the characters `s[lo..hi]`. */
  function Breaks(s: string, lo: nat, hi: nat): nat
    requires lo <= hi <= |s|
    decreases hi - lo
  {
    if lo == hi then 0 else (if lo > 0 && BreaksBefore(s, lo) then 1 else 0) + Breaks(s, lo + 1, hi)
  }

  /** Where `s[k]` lands in the underscored form of `s[i..]`: after `k - i` characters and the breaks up to it. */
  function Placed(s: string, i: nat, k: nat): nat
    requires i <= k < |s|
  {
    k - i + Breaks(s, i, k + 1)
  }

  /** Counting the breaks one character further on the right. */
  lemma {:induction false} BreaksSnoc(s: string, lo: nat, hi: nat)
    requires lo <= hi < |s|
    ensures Breaks(s, lo, hi + 1) == Breaks(s, lo, hi) + (if hi > 0 && BreaksBefore(s, hi) then 1 else 0)
    decreases hi - lo
  {
    if lo < hi {
      BreaksSnoc(s, lo + 1, hi);
    }
  }

  /** The underscored form has one character per character of `s`, plus one `_` per break. */
  lemma {:induction false} UnderscoreLength(s: string, i: nat)
    requires i <= |s|
    ensures |UnderscoreFrom(s, i)| == |s| - i + Breaks(s, i, |s|)
    decreases |s| - i
  {
    if i < |s| {
      UnderscoreLength(s, i + 1);
    }
  }

  /** Each `s[k]` appears lower-cased at `Placed(s, i, k)`, right after the `_` of a break before it. */
  lemma {:induction false} UnderscoreAt(s: string, i: nat, k: nat)
    requires i <= k < |s|
    ensures Placed(s, i, k) < |UnderscoreFrom(s, i)|
    ensures UnderscoreFrom(s, i)[Placed(s, i, k)] == LowerChar(s[k])
    ensures k > 0 && BreaksBefore(s, k) ==> Placed(s, i, k) > 0 && UnderscoreFrom(s, i)[Placed(s, i, k) - 1] == '_'
    decreases |s| - i
  {
    var pre: string := if i > 0 && BreaksBefore(s, i) then "_" else "";
    var rest := UnderscoreFrom(s, i + 1);
    assert UnderscoreFrom(s, i) == pre + [LowerChar(s[i])] + rest;
    assert Breaks(s, i, k + 1) == |pre| + Breaks(s, i + 1, k + 1);
    if k > i {
      UnderscoreAt(s, i + 1, k);
      assert Placed(s, i, k) == |pre| + 1 + Placed(s, i + 1, k);
      assert UnderscoreFrom(s, i)[Placed(s, i, k)] == rest[Placed(s, i + 1, k)];
    }
  }

  /**
   * `underscore` as a layout: the characters of `s` appear lower-cased and in
   * order, each one place after the previous, or two places with a `_` in
   * between exactly where `BreaksBefore` holds; nothing else is added.
   */
  lemma UnderscoreLayout(s: string)
    ensures |Underscore(s)| == |s| + Breaks(s, 0, |s|)
    ensures |s| > 0 ==> Placed(s, 0, 0) == 0
    ensures forall k :: 0 <= k < |s| ==> Placed(s, 0, k) < |Underscore(s)| && Underscore(s)[Placed(s, 0, k)] == LowerChar(s[k])
    ensures forall k :: 0 < k < |s| ==>
              Placed(s, 0, k) == Placed(s, 0, k - 1) + (if BreaksBefore(s, k) then 2 else 1)
    ensures forall k :: 0 < k < |s| && BreaksBefore(s, k) ==> Underscore(s)[Placed(s, 0, k) - 1] == '_'
  {
    UnderscoreLength(s, 0);
    if |s| > 0 {
      assert Breaks(s, 0, 1) == Breaks(s, 1, 1) == 0;
    }
    forall k | 0 <= k < |s|
      ensures Placed(s, 0, k) < |Underscore(s)| && Underscore(s)[Placed(s, 0, k)] == LowerChar(s[k])
      ensures k > 0 && BreaksBefore(s, k) ==> Underscore(s)[Placed(s, 0, k) - 1] == '_'
    {
      UnderscoreAt(s, 0, k);
    }
    forall k | 0 < k < |s|
      ensures Placed(s, 0, k) == Placed(s, 0, k - 1) + (if BreaksBefore(s, k) then 2 else 1)
    {
      BreaksSnoc(s, 0, k);
    }
  }

  /** `pat` occurs in `s` at position `k`. */
  predicate OccursAt(s: string, pat: string, k: int) {
    0 <= k && k + |pat| <= |s| && s[k..k + |pat|] == pat
  }

  /** The first position at or after `i` where `pat` occurs in `s`. */
  function FindFrom(s: string, pat: string, i: nat): (r: Option<nat>)
    requires i <= |s|
    ensures r.None? <==> forall k :: i <= k ==> !OccursAt(s, pat, k)
    ensures r.Some? ==> i <= r.value && OccursAt(s, pat, r.value) && forall k :: i <= k < r.value ==> !OccursAt(s, pat, k)
    decreases |s| - i
  {
    if i + |pat| > |s| then None
    else if s[i..i + |pat|] == pat then
      assert OccursAt(s, pat, i);
      Some(i)
    else FindFrom(s, pat, i + 1)
  }

  /** `sub(pat, '')`: the first occurrence of `pat` removed, `s` itself when there is none. */
  function RemoveFirst(s: string, pat: string): (r: string)
    ensures FindFrom(s, pat, 0).None? ==> r == s
    ensures FindFrom(s, pat, 0).Some? ==> var k := FindFrom(s, pat, 0).value;
                                          r == s[..k] + s[k + |pat|..] && |r| == |s| - |pat|
  {
    match FindFrom(s, pat, 0)
    case None => s
    case Some(k) => s[..k] + s[k + |pat|..]
  }

  /** The tag an importer gets when none is given: its underscored class name without `_importer`. */
  function DefaultTag(className: string): string {
    RemoveFirst(Underscore(className), "_importer")
  }

  /** A run with no break in it gets no `_`: it is only lower-cased. */
  lemma {:induction false} UnderscoreRun(s: string, i: nat, j: nat)
    requires i <= j <= |s|
    requires forall k :: i <= k < j && 0 < k ==> !BreaksBefore(s, k)
    ensures UnderscoreFrom(s, i) == Downcase(s[i..j]) + UnderscoreFrom(s, j)
    decreases j - i
  {
    if i < j {
      UnderscoreRun(s, i + 1, j);
      DowncaseCons(s[i..j]);
      assert s[i..j][1..] == s[i + 1..j];
    }
  }

  lemma DowncaseCons(s: string)
    requires s != []
    ensures Downcase(s) == [LowerChar(s[0])] + Downcase(s[1..])
  {
  }

  /** At a break, `underscore` puts `_` and the lower-cased capital. */
  lemma UnderscoreBreak(s: string, i: nat)
    requires 0 < i < |s| && BreaksBefore(s, i)
    ensures UnderscoreFrom(s, i) == "_" + [LowerChar(s[i])] + UnderscoreFrom(s, i + 1)
  {
  }

  /** `HTTPClient` breaks only before the `C` that starts the second word. */
  lemma AcronymBreaks(s: string)
    requires s == "HTTPClient"
    ensures forall k :: 0 < k < 4 ==> !BreaksBefore(s, k)
    ensures BreaksBefore(s, 4)
    ensures forall k :: 5 <= k < 10 ==> !BreaksBefore(s, k)
  {
  }

  lemma AcronymWords(s: string)
    requires s == "HTTPClient"
    ensures Downcase(s[..4]) == "http" && Downcase(s[5..10]) == "lient"
  {
  }

  lemma {:induction false} UnderscoreAcronymSplit(s: string)
    requires s == "HTTPClient"
    ensures Underscore(s) == Downcase(s[..4]) + "_" + [LowerChar(s[4])] + Downcase(s[5..10])
  {
    assert UnderscoreFrom(s, 0) == Downcase(s[..4]) + UnderscoreFrom(s, 4) by {
      AcronymBreaks(s);
      UnderscoreRun(s, 0, 4);
    }
    assert UnderscoreFrom(s, 4) == "_" + [LowerChar(s[4])] + UnderscoreFrom(s, 5) by {
      AcronymBreaks(s);
      UnderscoreBreak(s, 4);
    }
    assert UnderscoreFrom(s, 5) == Downcase(s[5..10]) by {
      AcronymBreaks(s);
      UnderscoreRun(s, 5, 10);
      assert UnderscoreFrom(s, 10) == "";
    }
  }

  /** An acronym keeps together and breaks before the capital that starts the next word. */
  lemma {:induction false} UnderscoreAcronym(s: string)
    requires s == "HTTPClient"
    ensures Underscore(s) == "http_client"
  {
    UnderscoreAcronymSplit(s);
    AcronymWords(s);
  }

  /** `sub(pat, '')` on `a + pat` gives `a` when no character of `a` could start `pat`. */
  lemma RemoveTrailing(a: string, pat: string)
    requires pat != []
    requires forall j :: 0 <= j < |a| ==> a[j] != pat[0]
    ensures RemoveFirst(a + pat, pat) == a
  {
    var s := a + pat;
    assert OccursAt(s, pat, |a|);
    forall j | 0 <= j < |a|
      ensures !OccursAt(s, pat, j)
    {
      assert s[j] == a[j];
    }
    assert FindFrom(s, pat, 0) == Some(|a|);
    assert s[..|a|] == a;
  }

  /** `CoinsmartImporter` breaks only before its second capital. */
  lemma CoinsmartBreaks(s: string)
    requires s == "CoinsmartImporter"
    ensures forall k :: 0 < k < 9 ==> !BreaksBefore(s, k)
    ensures BreaksBefore(s, 9)
    ensures forall k :: 10 <= k < 17 ==> !BreaksBefore(s, k)
  {
  }

  lemma CoinsmartWords(s: string)
    requires s == "CoinsmartImporter"
    ensures Downcase(s[..9]) == "coinsmart" && Downcase(s[10..17]) == "mporter"
  {
  }

  lemma {:induction false} CoinsmartUnderscoredSplit(s: string)
    requires s == "CoinsmartImporter"
    ensures Underscore(s) == Downcase(s[..9]) + "_" + [LowerChar(s[9])] + Downcase(s[10..17])
  {
    assert UnderscoreFrom(s, 0) == Downcase(s[..9]) + UnderscoreFrom(s, 9) by {
      CoinsmartBreaks(s);
      UnderscoreRun(s, 0, 9);
    }
    assert UnderscoreFrom(s, 9) == "_" + [LowerChar(s[9])] + UnderscoreFrom(s, 10) by {
      CoinsmartBreaks(s);
      UnderscoreBreak(s, 9);
    }
    assert UnderscoreFrom(s, 10) == Downcase(s[10..17]) by {
      CoinsmartBreaks(s);
      UnderscoreRun(s, 10, 17);
      assert UnderscoreFrom(s, 17) == "";
    }
  }

  /** `CoinsmartImporter` underscores to `coinsmart_importer`. */
  lemma {:induction false} CoinsmartUnderscored(s: string)
    requires s == "CoinsmartImporter"
    ensures Underscore(s) == "coinsmart_importer"
  {
    CoinsmartUnderscoredSplit(s);
    CoinsmartWords(s);
  }

  /** `CoinsmartImporter` is tagged `coinsmart`. */
  lemma {:induction false} CoinsmartDefaultTag(name: string)
    requires name == "CoinsmartImporter"
    ensures DefaultTag(name) == "coinsmart"
  {
    CoinsmartUnderscored(name);
    TagOfUnderscored(Underscore(name), "coinsmart");
  }

  lemma TagOfUnderscored(u: string, a: string)
    requires a == "coinsmart" && u == "coinsmart_importer"
    ensures RemoveFirst(u, "_importer") == a
  {
    assert u == a + "_importer";
    RemoveTrailing(a, "_importer");
  }

  /** `tag(tag = nil)`: the remembered tag if any, else the one given, else the default. */
  function ResolveTag(memo: Option<string>, given: Option<string>, className: string): (r: string)
    ensures memo.Some? ==> r == memo.value
    ensures memo.None? && given.Some? ==> r == given.value
    ensures memo.None? && given.None? ==> r == DefaultTag(className)
  {
    match memo
    case Some(t) => t
    case None => given.GetOr(DefaultTag(className))
  }

  /** Once a tag is resolved, every later call returns it, whatever it is given. */
  lemma TagSticks(memo: Option<string>, first: Option<string>, later: Option<string>, className: string)
    ensures var t := ResolveTag(memo, first, className);
            ResolveTag(Some(t), later, className) == t
  {
  }

  // ---------------------------------------------------------------- the importer object

  /**
   * An importer class. `@tag` in `self.tag` is an instance variable of the
   * class object, so the memo lives here and every importer of the class
   * shares it.
   */
  class ImporterClass {
    const name: string
    /** The class-level `@tag`, unset until `tag` is first called. */
    var tagMemo: Option<string>

    constructor (name: string)
      ensures this.name == name && tagMemo == None
    {
      this.name := name;
      tagMemo := None;
    }

    /** `self.tag(tag = nil)`: resolves the tag and remembers it for the class. */
    method Tag(given: Option<string>) returns (t: string)
      modifies this
      ensures t == ResolveTag(old(tagMemo), given, name)
      ensures tagMemo == Some(t)
    {
      if tagMemo.None? {
        tagMemo := Some(if given.Some? then given.value else DefaultTag(name));
      }
      t := tagMemo.value;
    }
  }

  /**
   * Two importers of one class ask for the tag in turn: the second gets the
   * tag the first one fixed, whatever it passes.
   */
  method TagOfTwoImporters(a: BaseImporter, b: BaseImporter, first: Option<string>, later: Option<string>)
    returns (ta: string, tb: string)
    requires a.klass == b.klass
    modifies a.klass
    ensures ta == ResolveTag(old(a.klass.tagMemo), first, a.klass.name)
    ensures tb == ta && a.klass.tagMemo == Some(ta)
  {
    ta := a.klass.Tag(first);
    tb := b.klass.Tag(later);
  }

  /** The per-importer state these helpers keep: its class and the synced metadata. */
  class BaseImporter {
    const klass: ImporterClass
    const options: map<string, Value>
    /** The `known_markets` metadata, nil until the first market is added. */
    var knownMarkets: Option<seq<Value>>

    predicate Valid()
      reads this
    {
      knownMarkets.Some? ==> MarketsOk(knownMarkets.value)
    }

    /** `initialize`: records the options; the class's tag memo is left as it is. */
    constructor (klass: ImporterClass, options: map<string, Value>, knownMarkets: Option<seq<Value>>)
      requires knownMarkets.Some? ==> MarketsOk(knownMarkets.value)
      ensures Valid()
      ensures this.klass == klass && this.options == options
      ensures this.knownMarkets == knownMarkets
      ensures klass.tagMemo == old(klass.tagMemo)
    {
      this.klass := klass;
      this.options := options;
      this.knownMarkets := knownMarkets;
    }

    /** `add_known_market(market)`. */
    method AddKnownMarket(market: Value)
      requires Valid()
      modifies this
      ensures Valid()
      ensures knownMarkets == WithMarket(old(knownMarkets), market)
    {
      if market == Nil || (knownMarkets.Some? && market in knownMarkets.value) {
        return;
      }
      if knownMarkets.None? {
        knownMarkets := Some([]);
      }
      knownMarkets := Some(knownMarkets.value + [market]);
      WithMarketKeepsOk(old(knownMarkets), market);
    }

    /** `skip_txn?(date)`, with the start date read from the options. */
    method SkipTxn(date: Option<int>, parse: Value -> Option<int>) returns (r: Result<bool, string>)
      ensures r == StartsAfter(Get(options, "start_date"), parse, date)
    {
      var option := Get(options, "start_date");
      if ValueBlank(option) {
        return Success(false);
      }
      var start := parse(option);
      if start.None? {
        return Failure("ArgumentError: no time information");
      }
      if date.None? {
        return Failure("ArgumentError: comparison of Time with nil failed");
      }
      return Success(start.value > date.value);
    }

    /** `skip_trade?(date)`, with the trade start date read from the options. */
    method SkipTrade(date: Option<int>, parse: Value -> Option<int>) returns (r: Result<bool, string>)
      ensures r == StartsAfter(Get(options, "trade_start_date"), parse, date)
    {
      var option := Get(options, "trade_start_date");
      if ValueBlank(option) {
        return Success(false);
      }
      var start := parse(option);
      if start.None? {
        return Failure("ArgumentError: no time information");
      }
      if date.None? {
        return Failure("ArgumentError: comparison of Time with nil failed");
      }
      return Success(start.value > date.value);
    }
  }

  // ---------------------------------------------------------------- synced balances

  /** `(sync_balances || {}).delete_if { |_, v| v.nil? }`: every balance but the nil ones, in order. */
  function DropNilBalances(balances: Option<seq<Balance>>): (r: seq<Balance>)
    ensures balances.None? ==> r == []
    ensures forall b :: b in r <==> balances.Some? && b in balances.value && b.1 != BalanceScalar(Nil)
    ensures balances.Some? ==> |r| <= |balances.value|
    ensures balances.Some? ==> r == Select(balances.value, Present)
  {
    match balances
    case None => []
    case Some(bs) => KeepPresent(bs)
  }

  /** A balance whose value is not nil. */
  predicate Present(b: Balance) {
    b.1 != BalanceScalar(Nil)
  }

  /** The balances that are not nil, in order, each as often as given. */
  function KeepPresent(bs: seq<Balance>): (r: seq<Balance>)
    ensures forall b :: b in r <==> b in bs && b.1 != BalanceScalar(Nil)
    ensures |r| <= |bs|
    ensures r == Select(bs, Present)
  {
    if bs == [] then []
    else KeepPresent(bs[..|bs| - 1]) + (if bs[|bs| - 1].1 == BalanceScalar(Nil) then [] else [bs[|bs| - 1]])
  }

  /** Dropping the nil balances leaves a list the same filter keeps whole. */
  lemma {:induction false} DropNilIdempotent(bs: seq<Balance>)
    ensures KeepPresent(KeepPresent(bs)) == KeepPresent(bs)
  {
    if bs != [] {
      var init := bs[..|bs| - 1];
      var last := bs[|bs| - 1];
      var front := KeepPresent(init);
      DropNilIdempotent(init);
      assert KeepPresent(front) == front;
      if last.1 == BalanceScalar(Nil) {
        assert KeepPresent(bs) == front;
      } else {
        var r := front + [last];
        assert KeepPresent(bs) == r;
        assert r[..|r| - 1] == front && r[|r| - 1] == last;
        assert KeepPresent(r) == KeepPresent(front) + [last];
      }
    }
  }
}

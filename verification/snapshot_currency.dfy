/**
 * The currency value the snapshot formatter compares txns by: built from
 * a currency string, a `build_currency` hash or the `[hash, symbol]` array
 * form, classified as fiat or crypto against the list of fiat symbols, and
 * compared by symbol, blockchain and that classification.
 */
module SnapshotCurrencies {
  import opened Wrappers
  import opened Text
  import opened Values

  datatype CurrencyValue = CurrencyValue(
    symbol: Option<string>,
    name: Option<string>,
    blockchain: Option<string>,
    tokenAddress: Option<string>,
    nftToken: Option<string>)

  /** A present address or NFT token, stripped and lower-cased; a blank one is kept as it is. */
  function CleanToken(t: Option<string>): (r: Option<string>)
    ensures t.None? || Blank(t.value) ==> r == t
    ensures t.Some? && !Blank(t.value) ==> r == Some(Downcase(Strip(t.value)))
  {
    if t.Some? && !Blank(t.value) then Some(Downcase(Strip(t.value))) else t
  }

  /** `symbol&.upcase&.strip`. */
  function CleanSymbol(s: Option<string>): (r: Option<string>)
    ensures s.None? <==> r.None?
    ensures r.Some? ==> |r.value| <= |s.value|
    ensures r.Some? ==> forall i :: 0 <= i < |r.value| ==> !('a' <= r.value[i] <= 'z')
    ensures r.Some? && r.value != [] ==> !IsStripSpace(r.value[0]) && !IsStripSpace(r.value[|r.value| - 1])
  {
    if s.Some? then UpcaseLeavesNoLower(s.value); Some(Strip(Upcase(s.value))) else None
  }

  /** The struct built from the collected parameters; the name falls back to the symbol. */
  function FromParams(symbol: Option<string>, blockchain: Option<string>, tokenAddress: Option<string>,
                      nftToken: Option<string>): CurrencyValue
  {
    var sym := CleanSymbol(symbol);
    CurrencyValue(sym, sym, blockchain, CleanToken(tokenAddress), CleanToken(nftToken))
  }

  /**
   * `CurrencyValue.build(attrs)`: a string gives its symbol; a hash its
   * symbol, blockchain and address (never its NFT token); the array form
   * the symbol after the hash and the hash's blockchain and NFT token
   * (never its address); anything else, a symbol included, gives nil. Any other hash has none
   * of those keys and gives an empty value rather than nil.
   */
  function BuildCurrency(v: Value): (r: Option<CurrencyValue>)
    ensures r.None? <==> v.Nil? || v.Bool? || v.Int? || v.Dec? || v.Sym? || v.Time?
    ensures r.Some? ==> r.value.name == r.value.symbol
    ensures v.Str? ==> r == Some(CurrencyValue(Some(Strip(Upcase(v.s))), Some(Strip(Upcase(v.s))), None, None, None))
    ensures v.Currency? ==> && r.value.symbol == CleanSymbol(v.desc.symbol)
                            && r.value.blockchain == v.desc.blockchain
                            && r.value.tokenAddress == CleanToken(v.desc.address)
                            && r.value.nftToken.None?
    ensures v.CurrencyPair? ==> && r.value.symbol == Some(Strip(Upcase(v.symbol)))
                                && r.value.blockchain == v.head.blockchain
                                && r.value.tokenAddress.None?
                                && r.value.nftToken == CleanToken(v.head.nftToken)
  {
    match v
    case Str(s) => Some(FromParams(Some(s), None, None, None))
    case Currency(d) => Some(FromParams(d.symbol, d.blockchain, d.address, None))
    case CurrencyPair(h, s) => Some(FromParams(Some(s), h.blockchain, None, h.nftToken))
    case WalletHash(_, _) => Some(FromParams(None, None, None, None))
    case Opaque(_) => Some(FromParams(None, None, None, None))
    case _ => None
  }

  /** `fiat?`: never with a blockchain, otherwise membership of the symbol in the fiat list. */
  predicate Fiat(c: CurrencyValue, fiats: set<string>) {
    c.blockchain.None? && c.symbol.Some? && c.symbol.value in fiats
  }

  /** `c == other`: false against nil, else same symbol, same blockchain and same fiat-ness. */
  predicate Equal(c: CurrencyValue, other: Option<CurrencyValue>, fiats: set<string>) {
    other.Some? && c.symbol == other.value.symbol && c.blockchain == other.value.blockchain
    && (Fiat(c, fiats) <==> Fiat(other.value, fiats))
  }

  /** `a == b` on two currency fields, either of which may be nil (nil equals only nil). */
  predicate Same(a: Option<CurrencyValue>, b: Option<CurrencyValue>, fiats: set<string>) {
    if a.None? then b.None? else Equal(a.value, b, fiats)
  }

  /**
   * Fiat-ness is decided by symbol and blockchain, so equality is exactly
   * same symbol and same blockchain; name, address and NFT token never count.
   */
  lemma EqualIsSymbolAndChain(c: CurrencyValue, d: CurrencyValue, fiats: set<string>)
    ensures Equal(c, Some(d), fiats) <==> c.symbol == d.symbol && c.blockchain == d.blockchain
  {
  }

  /** `Same` is an equivalence on currency fields. */
  lemma SameIsEquivalence(a: Option<CurrencyValue>, b: Option<CurrencyValue>, c: Option<CurrencyValue>, fiats: set<string>)
    ensures Same(a, a, fiats)
    ensures Same(a, b, fiats) ==> Same(b, a, fiats)
    ensures Same(a, b, fiats) && Same(b, c, fiats) ==> Same(a, c, fiats)
  {
  }

  /** A currency with a blockchain is crypto, even when its symbol is a fiat symbol. */
  lemma ChainMeansCrypto(c: CurrencyValue, fiats: set<string>)
    requires c.blockchain.Some?
    ensures !Fiat(c, fiats)
  {
  }
}

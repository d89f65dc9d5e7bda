/**
 * The dynamically typed values that flow through the importer: nil,
 * booleans, integers, BigDecimals, strings, times, the currency hashes
 * `build_currency` produces (alone or in the `[hash, symbol]` array form),
 * wallet hashes and opaque payloads such as `external_data`.
 */
module Values {
  import opened Wrappers
  import opened Text

  /**
   * A currency hash as `build_currency` makes it. `valid` stands for the
   * `:valid` marker `build_currency` sets and the adapter's currency check
   * deletes; an absent optional key is `None`.
   */
  datatype Descriptor = Descriptor(
    symbol: Option<string>,
    address: Option<string>,
    nftToken: Option<string>,
    blockchain: Option<string>,
    valid: bool)

  const EMPTY_DESCRIPTOR := Descriptor(None, None, None, None, false)

  /** One Ruby value. A symbol is kept apart from the string of the same name: Ruby's `==` tells them apart. */
  datatype Value =
    | Nil
    | Bool(b: bool)
    | Int(i: int)
    | Dec(d: real)
    | Str(s: string)
    | Sym(name: string)
    | Time(seconds: int)
    | Currency(desc: Descriptor)
    | CurrencyPair(head: Descriptor, symbol: string)
    | WalletHash(id: Option<string>, serviceTag: Option<string>)
    | Opaque(tag: string)

  /** Ruby truthiness: everything except nil and false. */
  predicate Truthy(v: Value) {
    !(v.Nil? || v == Bool(false))
  }

  /** `||`: the left value when truthy, else the right one. */
  function Or(a: Value, b: Value): (r: Value)
    ensures Truthy(a) ==> r == a
    ensures !Truthy(a) ==> r == b
  {
    if Truthy(a) then a else b
  }

  /**
   * ActiveSupport `blank?`: nil, false, blank strings, the empty symbol and empty hashes;
   * numbers, times and arrays of two elements never are. An opaque payload
   * is taken to be a non-empty hash.
   */
  predicate ValueBlank(v: Value) {
    match v
    case Nil => true
    case Bool(b) => !b
    case Str(s) => Blank(s)
    case Sym(n) => n == []
    case Currency(d) => d == EMPTY_DESCRIPTOR
    case WalletHash(id, tag) => id.None? && tag.None?
    case _ => false
  }

  /** `presence`: the value itself unless it is blank, then nil. */
  function PresenceOf(v: Value): (r: Value)
    ensures ValueBlank(v) ==> r == Nil
    ensures !ValueBlank(v) ==> r == v
  {
    if ValueBlank(v) then Nil else v
  }

  /** `to_s`: strings are themselves, a symbol its name and nil is empty; any other value is rendered by `display`. */
  function ToS(v: Value, display: Value -> string): (r: string)
    ensures v.Str? ==> r == v.s
    ensures v.Sym? ==> r == v.name
    ensures v.Nil? ==> r == ""
  {
    match v
    case Str(s) => s
    case Sym(n) => n
    case Nil => ""
    case _ => display(v)
  }

  /** `to_s.presence` of an attribute: nil, or the non-blank rendering. */
  function TextPresence(v: Value, display: Value -> string): (r: Option<string>)
    ensures r.Some? <==> !Blank(ToS(v, display))
    ensures r.Some? ==> r.value == ToS(v, display)
  {
    Presence(Some(ToS(v, display)))
  }

  /** `hash[key]` on a params hash: nil when the key is absent. */
  function Get(m: map<string, Value>, key: string): (r: Value)
    ensures key !in m ==> r == Nil
    ensures key in m ==> r == m[key]
  {
    if key in m then m[key] else Nil
  }

  /** An optional string as a value: nil or a string. */
  function OptStr(o: Option<string>): (r: Value)
    ensures o.None? <==> r.Nil?
    ensures o.Some? ==> r == Str(o.value)
  {
    match o
    case None => Nil
    case Some(s) => Str(s)
  }

  /** The currency value with the `:valid` marker deleted from every hash in it. */
  function StripValid(v: Value): (r: Value)
    ensures !v.Currency? && !v.CurrencyPair? ==> r == v
    ensures v.Currency? ==> r == Currency(v.desc.(valid := false))
    ensures v.CurrencyPair? ==> r == CurrencyPair(v.head.(valid := false), v.symbol)
  {
    match v
    case Currency(d) => Currency(d.(valid := false))
    case CurrencyPair(d, s) => CurrencyPair(d.(valid := false), s)
    case _ => v
  }

  /** `required - options.keys`: the required option names the options lack, in order. */
  function MissingOptions(required: seq<string>, opts: map<string, Value>): (r: seq<string>)
    ensures forall o :: o in r <==> o in required && o !in opts
  {
    if required == [] then []
    else (if required[0] !in opts then [required[0]] else []) + MissingOptions(required[1..], opts)
  }
}

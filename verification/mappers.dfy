/**
 * The two CSV mappers: Coinsmart, whose rows are classified by their
 * Reference Type and whose amounts come from the first debit or credit
 * column, and Coinmetro, whose mapping is declarative. A mapping names the
 * headers a file must have, the headers it may have, the header(s) each txn
 * field is read from, and two rules over a raw row: the key rows are grouped
 * by and whether a row takes part in grouping at all.
 */
module Mappers {
  import opened Wrappers
  import opened Text
  import opened Values
  import opened CsvImports

  /** A raw CSV row: its headers and their values, in column order. */
  type Row = seq<(string, Value)>

  /** `row[header]`: the value of the first column with that header, nil when there is none. */
  function Lookup(row: Row, header: string): (r: Value)
    ensures (forall k :: 0 <= k < |row| ==> row[k].0 != header) ==> r == Nil
    ensures forall k :: 0 <= k < |row| && row[k].0 == header && (forall j :: 0 <= j < k ==> row[j].0 != header) ==> r == row[k].1
  {
    if row == [] then Nil
    else if row[0].0 == header then row[0].1
    else Lookup(row[1..], header)
  }

  /**
   * A mapping: its id, its required and optional headers, for each txn
   * field the header(s) it is read from, and the grouping rules; a rule
   * that calls `match?` on a missing column raises, which is `Failure`.
   */
  datatype Mapping = Mapping(
    id: string,
    requiredHeaders: seq<string>,
    optionalHeaders: seq<string>,
    headerMappings: map<string, seq<string>>,
    groupBy: Row -> Value,
    eligible: Row -> Result<bool, string>)

  /** The header(s) a txn field is read from; none when the mapping does not map it. */
  function HeadersFor(m: Mapping, field: string): (r: seq<string>)
    ensures field !in m.headerMappings ==> r == []
    ensures field in m.headerMappings ==> r == m.headerMappings[field]
  {
    if field in m.headerMappings then m.headerMappings[field] else []
  }

  /** Every header a mapping reads a field from is one the mapping declares, required or optional. */
  predicate ReadsDeclaredHeaders(m: Mapping) {
    forall field, h :: field in m.headerMappings && h in m.headerMappings[field] ==>
      h in m.requiredHeaders || h in m.optionalHeaders
  }

  /** `value.match?(/word/i)` on a cell: raises unless the cell holds a string. */
  function MatchCell(v: Value, words: seq<string>): (r: Result<bool, string>)
    ensures r.Failure? <==> !v.Str?
    ensures r.Success? ==> (r.value <==> exists w :: w in words && ContainsCI(v.s, w))
  {
    if v.Str? then Success(exists w :: w in words && ContainsCI(v.s, w))
    else Failure("NoMethodError: undefined method `match?' for nil")
  }

  // ---------------------------------------------------------------- Coinsmart

  function CoinsmartGroupBy(row: Row): Value {
    Lookup(row, "Time Stamp")
  }

  function CoinsmartEligible(row: Row): Result<bool, string> {
    MatchCell(Lookup(row, "Transaction Type"), ["trade", "fee"])
  }

  const COINSMART: Mapping := Mapping(
    "coinsmart-transactions",
    ["Transaction Type", "Reference Type", "Product", "Balance", "Time Stamp"],
    ["Debit", "Debits", "Credit", "Credits"],
    map["date" := ["Time Stamp"], "from_amount" := ["Debit", "Debits"], "to_amount" := ["Credit", "Credits"]],
    CoinsmartGroupBy,
    CoinsmartEligible)

  /**
   * The Coinsmart mapping: five required headers, the amounts read from
   * the debit and credit columns in their two spellings, rows grouped by
   * their time stamp, and only trade and fee rows eligible for grouping.
   */
  lemma CoinsmartMapping(row: Row)
    ensures COINSMART.id == "coinsmart-transactions"
    ensures |COINSMART.requiredHeaders| == 5
    ensures HeadersFor(COINSMART, "date") == ["Time Stamp"]
    ensures HeadersFor(COINSMART, "from_amount") == ["Debit", "Debits"]
    ensures HeadersFor(COINSMART, "to_amount") == ["Credit", "Credits"]
    ensures ReadsDeclaredHeaders(COINSMART)
    ensures COINSMART.groupBy(row) == Lookup(row, "Time Stamp")
    ensures COINSMART.eligible(row).Failure? <==> !Lookup(row, "Transaction Type").Str?
    ensures COINSMART.eligible(row).Success? ==>
              (COINSMART.eligible(row).value <==>
                 ContainsCI(Lookup(row, "Transaction Type").s, "trade") || ContainsCI(Lookup(row, "Transaction Type").s, "fee"))
  {
  }

  /** The first column whose header contains `word`, ignoring case. */
  function FirstColumnWith(row: Row, word: string): (r: Option<nat>)
    ensures r.None? <==> forall k :: 0 <= k < |row| ==> !ContainsCI(row[k].0, word)
    ensures r.Some? ==> r.value < |row| && ContainsCI(row[r.value].0, word)
                        && forall k :: 0 <= k < r.value ==> !ContainsCI(row[k].0, word)
  {
    if row == [] then None
    else if ContainsCI(row[0].0, word) then Some(0)
    else match FirstColumnWith(row[1..], word)
      case None => None
      case Some(k) => Some(k + 1)
  }

  /** The value of the first column whose header contains `word` in any case; nil when no header does. */
  function FirstValueWith(row: Row, word: string): (r: Value)
    ensures (forall k :: 0 <= k < |row| ==> !ContainsCI(row[k].0, word)) ==> r == Nil
    ensures forall k :: (0 <= k < |row| && ContainsCI(row[k].0, word)
                         && (forall j :: 0 <= j < k ==> !ContainsCI(row[j].0, word))) ==> r == row[k].1
  {
    match FirstColumnWith(row, word)
    case None => Nil
    case Some(k) => row[k].1
  }

  /** `from_amount(row)`: the first debit column's value. */
  function DebitOf(row: Row): Value {
    FirstValueWith(row, "debit")
  }

  /** `to_amount(row)`: the first credit column's value. */
  function CreditOf(row: Row): Value {
    FirstValueWith(row, "credit")
  }

  /**
   * When the only columns whose header contains `word` are spelled
   * `header`, which does contain it, the column pick is `row[header]`
   * (e.g. a file with just a `Debit` column).
   */
  lemma FirstValueIsLookup(row: Row, word: string, header: string)
    requires ContainsCI(header, word)
    requires forall k :: 0 <= k < |row| && ContainsCI(row[k].0, word) ==> row[k].0 == header
    ensures FirstValueWith(row, word) == Lookup(row, header)
  {
    if exists k :: 0 <= k < |row| && row[k].0 == header {
      var k := FirstWithHeader(row, header);
      assert forall j :: 0 <= j < k ==> !ContainsCI(row[j].0, word);
    }
  }

  /** The index of the first column with exactly this header. */
  function FirstWithHeader(row: Row, header: string): (k: nat)
    requires exists k :: 0 <= k < |row| && row[k].0 == header
    ensures k < |row| && row[k].0 == header && forall j :: 0 <= j < k ==> row[j].0 != header
  {
    if row[0].0 == header then 0
    else
      assert exists k :: 0 <= k < |row[1..]| && row[1..][k].0 == header by {
        var k :| 0 <= k < |row| && row[k].0 == header;
        assert row[1..][k - 1] == row[k];
      }
      FirstWithHeader(row[1..], header) + 1
  }

  /** How `parse_row` reads a Reference Type: the first of these words it contains, in any case. */
  datatype RefKind = DepositRef | WithdrawRef | FeeRef | OtherRef

  function RefKindOf(refType: string): (k: RefKind)
    ensures k == DepositRef <==> ContainsCI(refType, "deposit")
    ensures k == WithdrawRef <==> !ContainsCI(refType, "deposit") && ContainsCI(refType, "withdraw")
    ensures k == FeeRef <==> !ContainsCI(refType, "deposit") && !ContainsCI(refType, "withdraw") && ContainsCI(refType, "fee")
  {
    if ContainsCI(refType, "deposit") then DepositRef
    else if ContainsCI(refType, "withdraw") then WithdrawRef
    else if ContainsCI(refType, "fee") then FeeRef
    else OtherRef
  }

  /** The mapped-row keys `parse_row` may write. */
  const PARSED_KEYS: set<string> := {"to_currency", "from_currency", "fee_currency", "fee_amount"}

  /**
   * `parse_row` as a function of the mapped row's contents: a Reference
   * Type that is not a string raises; a deposit sets the to-currency, a
   * withdrawal the from-currency, a fee the fee currency and the fee amount
   * (debit, else credit), and any other row the from-currency when it has a
   * debit and the to-currency when it has a credit, each to the Product.
   */
  function CoinsmartParse(mapped: map<string, Value>, raw: Row): (r: Result<map<string, Value>, string>)
    ensures r.Failure? <==> !Lookup(raw, "Reference Type").Str?
    ensures r.Success? ==> forall key :: key !in PARSED_KEYS ==> (key in r.value <==> key in mapped)
    ensures r.Success? ==> forall key :: key !in PARSED_KEYS && key in mapped ==> r.value[key] == mapped[key]
  {
    var currency := Lookup(raw, "Product");
    var refType := Lookup(raw, "Reference Type");
    var debit := DebitOf(raw);
    var credit := CreditOf(raw);
    if !refType.Str? then Failure("NoMethodError: undefined method `match?' for nil")
    else match RefKindOf(refType.s)
      case DepositRef => Success(mapped["to_currency" := currency])
      case WithdrawRef => Success(mapped["from_currency" := currency])
      case FeeRef => Success(mapped["fee_currency" := currency]["fee_amount" := Or(debit, credit)])
      case OtherRef =>
        var withFrom := if Truthy(debit) then mapped["from_currency" := currency] else mapped;
        Success(if Truthy(credit) then withFrom["to_currency" := currency] else withFrom)
  }

  /** A deposit row sets only the to-currency, a withdrawal row only the from-currency. */
  lemma DepositAndWithdrawSetOneLeg(mapped: map<string, Value>, raw: Row)
    requires Lookup(raw, "Reference Type").Str?
    ensures var ref := Lookup(raw, "Reference Type").s;
            var r := CoinsmartParse(mapped, raw).value;
            && (ContainsCI(ref, "deposit") ==> r == mapped["to_currency" := Lookup(raw, "Product")])
            && (!ContainsCI(ref, "deposit") && ContainsCI(ref, "withdraw") ==> r == mapped["from_currency" := Lookup(raw, "Product")])
  {
  }

  /** A fee row records the Product as fee currency and the debit, else the credit, as fee amount. */
  lemma FeeRowTakesDebitThenCredit(mapped: map<string, Value>, raw: Row)
    requires Lookup(raw, "Reference Type").Str?
    requires RefKindOf(Lookup(raw, "Reference Type").s) == FeeRef
    ensures var r := CoinsmartParse(mapped, raw).value;
            && r.Keys == mapped.Keys + {"fee_currency", "fee_amount"}
            && r["fee_currency"] == Lookup(raw, "Product")
            && (Truthy(DebitOf(raw)) ==> r["fee_amount"] == DebitOf(raw))
            && (!Truthy(DebitOf(raw)) ==> r["fee_amount"] == CreditOf(raw))
  {
  }

  /**
   * Any other row: the from-currency is set exactly when the row has a
   * (truthy) debit and the to-currency exactly when it has a credit, so
   * both may be set; the fee keys are left as they were.
   */
  lemma OtherRowSetsLegsByAmounts(mapped: map<string, Value>, raw: Row)
    requires Lookup(raw, "Reference Type").Str?
    requires RefKindOf(Lookup(raw, "Reference Type").s) == OtherRef
    ensures var r := CoinsmartParse(mapped, raw).value;
            var currency := Lookup(raw, "Product");
            && (Truthy(DebitOf(raw)) ==> "from_currency" in r && r["from_currency"] == currency)
            && (!Truthy(DebitOf(raw)) ==>
                  ("from_currency" in r <==> "from_currency" in mapped)
                  && ("from_currency" in mapped ==> r["from_currency"] == mapped["from_currency"]))
            && (Truthy(CreditOf(raw)) ==> "to_currency" in r && r["to_currency"] == currency)
            && (!Truthy(CreditOf(raw)) ==>
                  ("to_currency" in r <==> "to_currency" in mapped)
                  && ("to_currency" in mapped ==> r["to_currency"] == mapped["to_currency"]))
            && (forall key :: key in {"fee_currency", "fee_amount"} ==>
                  (key in r <==> key in mapped) && (key in mapped ==> r[key] == mapped[key]))
  {
  }

  /** The hash `parse_row` fills in; the caller owns it and gets the same hash back. */
  class MappedRow {
    var fields: map<string, Value>

    constructor (fields: map<string, Value>)
      ensures this.fields == fields
    {
      this.fields := fields;
    }
  }

  class CoinsmartMapper {
    constructor ()
    {
    }

    /**
     * `parse_row(mapped_row, raw_row, options)`: updates `mapped` in place
     * as `CoinsmartParse` says and returns that same hash; a Reference Type
     * that is not a string raises before anything is written.
     */
    method ParseRow(mapped: MappedRow, raw: Row, options: map<string, Value>) returns (r: Result<MappedRow, string>)
      modifies mapped
      ensures r.Success? <==> CoinsmartParse(old(mapped.fields), raw).Success?
      ensures r.Success? ==> r.value == mapped && CoinsmartParse(old(mapped.fields), raw) == Success(mapped.fields)
      ensures r.Failure? ==> mapped.fields == old(mapped.fields) && r.error == CoinsmartParse(old(mapped.fields), raw).error
    {
      var currency := Lookup(raw, "Product");
      var refType := Lookup(raw, "Reference Type");
      var debit := DebitOf(raw);
      var credit := CreditOf(raw);
      if !refType.Str? {
        return Failure("NoMethodError: undefined method `match?' for nil");
      }
      if ContainsCI(refType.s, "deposit") {
        mapped.fields := mapped.fields["to_currency" := currency];
      } else if ContainsCI(refType.s, "withdraw") {
        mapped.fields := mapped.fields["from_currency" := currency];
      } else if ContainsCI(refType.s, "fee") {
        mapped.fields := mapped.fields["fee_currency" := currency];
        mapped.fields := mapped.fields["fee_amount" := Or(debit, credit)];
      } else {
        if Truthy(debit) {
          mapped.fields := mapped.fields["from_currency" := currency];
        }
        if Truthy(credit) {
          mapped.fields := mapped.fields["to_currency" := currency];
        }
      }
      return Success(mapped);
    }
  }

  // ---------------------------------------------------------------- Coinmetro

  function CoinmetroGroupBy(row: Row): Value {
    Lookup(row, "Description")
  }

  function CoinmetroEligible(row: Row): Result<bool, string> {
    MatchCell(Lookup(row, "Description"), ["order"])
  }

  const COINMETRO: Mapping := Mapping(
    "coinmetro-transactions",
    ["Currency", "Date", "Description", "Amount", "Fees", "Price", "Pair", "Other Currency", "Other Amount"],
    ["IBAN", "Transaction Hash", "Additional Info"],
    map["date" := ["Date"], "amount" := ["Amount"], "currency" := ["Currency"], "to_amount" := ["Other Amount"],
        "to_currency" := ["Other Currency"], "txhash" := ["Transaction hash"], "description" := ["Description"],
        "fee_currency" := ["Currency"], "fee_amount" := ["Fees"]],
    CoinmetroGroupBy,
    CoinmetroEligible)

  /**
   * The Coinmetro mapping: nine required and three optional headers; the
   * currency and the fee currency both read Currency, the fee amount Fees,
   * the to-leg Other Amount and Other Currency; rows are grouped by their
   * Description and eligible when it mentions an order.
   */
  lemma CoinmetroMapping(row: Row)
    ensures COINMETRO.id == "coinmetro-transactions"
    ensures |COINMETRO.requiredHeaders| == 9 && |COINMETRO.optionalHeaders| == 3
    ensures HeadersFor(COINMETRO, "currency") == HeadersFor(COINMETRO, "fee_currency") == ["Currency"]
    ensures HeadersFor(COINMETRO, "fee_amount") == ["Fees"]
    ensures HeadersFor(COINMETRO, "to_amount") == ["Other Amount"]
    ensures HeadersFor(COINMETRO, "to_currency") == ["Other Currency"]
    ensures COINMETRO.groupBy(row) == Lookup(row, "Description")
    ensures COINMETRO.eligible(row).Failure? <==> !Lookup(row, "Description").Str?
    ensures COINMETRO.eligible(row).Success? ==>
              (COINMETRO.eligible(row).value <==> ContainsCI(Lookup(row, "Description").s, "order"))
  {
  }

  /**
   * The txhash is read from a header spelled `Transaction hash`, which the
   * mapping does not declare: the optional header is `Transaction Hash`.
   */
  lemma CoinmetroTxhashHeaderUndeclared()
    ensures HeadersFor(COINMETRO, "txhash") == ["Transaction hash"]
    ensures "Transaction hash" !in COINMETRO.requiredHeaders && "Transaction hash" !in COINMETRO.optionalHeaders
    ensures "Transaction Hash" in COINMETRO.optionalHeaders
    ensures !ReadsDeclaredHeaders(COINMETRO)
  {
    assert "Transaction hash" in COINMETRO.headerMappings["txhash"];
  }

  // ---------------------------------------------------------------- the registry of these mappers

  /** The mapper classes shown here, sorted by name, with their mapping ids. */
  const MAPPER_CLASSES: seq<MapperClass> := [
    MapperClass("CoinmetroMapper", [COINMETRO.id]),
    MapperClass("CoinsmartMapper", [COINSMART.id])
  ]

  /** Registering these two mappers succeeds: their ids are distinct and each points to its class. */
  lemma ShownMappersRegister()
    ensures Registry(MAPPER_CLASSES) == Success([(COINMETRO.id, "CoinmetroMapper"), (COINSMART.id, "CoinsmartMapper")])
  {
    assert Flatten(MAPPER_CLASSES[..1]) == [(COINMETRO.id, "CoinmetroMapper")] by {
      assert MAPPER_CLASSES[..1][..0] == [];
    }
    assert Flatten(MAPPER_CLASSES) == [(COINMETRO.id, "CoinmetroMapper"), (COINSMART.id, "CoinsmartMapper")] by {
      assert MAPPER_CLASSES[..|MAPPER_CLASSES| - 1] == MAPPER_CLASSES[..1];
    }
    assert COINMETRO.id != COINSMART.id by {
      assert COINMETRO.id[4] != COINSMART.id[4];
    }
  }
}

/**
 * `TxnError`, the argument error the adapter raises: built either from a
 * message or from an object carrying validation errors (a Txn or another
 * model), whose full messages joined by ", " become the message.
 */
module TxnErrors {
  import opened Wrappers
  import opened Text
  import opened TxnModel

  /** What `TxnError.new` is given. */
  datatype ErrorSource =
    | MessageSource(text: string)
    | TxnSource(txn: Txn, txnErrors: seq<FieldError>)
    | ModelSource(modelErrors: seq<FieldError>)

  /** The raised error: its message and the `txn`/`errors` readers (nil when unset). */
  datatype TxnError = TxnError(message: string, txn: Option<Txn>, errors: Option<seq<FieldError>>)

  /**
   * ActiveSupport `humanize` of an attribute name, with no inflection rules
   * or acronyms defined: leading underscores and a trailing `_id` dropped,
   * `_` as space, letters downcased, the first one upcased.
   */
  function Humanize(attribute: string): (r: string)
    ensures |r| <= |attribute|
    ensures forall i :: 0 <= i < |r| ==> r[i] != '_'
    ensures forall i :: 1 <= i < |r| ==> !('A' <= r[i] <= 'Z')
    ensures r != [] ==> !('a' <= r[0] <= 'z')
  {
    var spaced := ReplaceAll(WithoutIdSuffix(DropLeading(attribute, '_')), '_', ' ');
    CapitalizedWords(spaced);
    Capitalized(Downcase(spaced))
  }

  /** Downcasing and then capitalizing a string without '_' leaves one leading capital at most and no '_'. */
  lemma CapitalizedWords(s: string)
    requires forall i :: 0 <= i < |s| ==> s[i] != '_'
    ensures var r := Capitalized(Downcase(s));
            && |r| == |s|
            && (forall i :: 0 <= i < |r| ==> r[i] != '_')
            && (forall i :: 1 <= i < |r| ==> !('A' <= r[i] <= 'Z'))
            && (r != [] ==> !('a' <= r[0] <= 'z'))
  {
    var d := Downcase(s);
    var r := Capitalized(d);
    forall i | 0 <= i < |r|
      ensures r[i] != '_' && (i >= 1 ==> !('A' <= r[i] <= 'Z')) && (i == 0 ==> !('a' <= r[0] <= 'z'))
    {
      CaseChar(s[i]);
      if i > 0 {
        assert r[i] == d[i] == LowerChar(s[i]);
      } else {
        CaseChar(d[0]);
      }
    }
  }

  /** Changing the case of a character never yields '_' from anything else, nor the other case. */
  lemma CaseChar(c: char)
    ensures c != '_' ==> LowerChar(c) != '_' && UpperChar(c) != '_'
    ensures !('A' <= LowerChar(c) <= 'Z') && !('a' <= UpperChar(c) <= 'z')
  {
  }

  /** `delete_suffix("_id")`. */
  function WithoutIdSuffix(s: string): (r: string)
    ensures r == s || (r + "_id" == s)
  {
    if |s| >= 3 && s[|s| - 3..] == "_id" then s[..|s| - 3] else s
  }

  /** The first character upcased. */
  function Capitalized(s: string): (r: string)
    ensures |r| == |s| && (s != [] ==> r[0] == UpperChar(s[0]))
    ensures forall i :: 1 <= i < |s| ==> r[i] == s[i]
  {
    if s == [] then [] else [UpperChar(s[0])] + s[1..]
  }

  /** `sub(/\A<c>+/, '')`: the string without its leading run of `c`. */
  function DropLeading(s: string, c: char): (r: string)
    ensures |r| <= |s| && r == s[|s| - |r|..]
    ensures r != [] ==> r[0] != c
  {
    if s != [] && s[0] == c then DropLeading(s[1..], c) else s
  }

  /**
   * `full_message`: an error on `:base` is its bare message; any other is
   * the humanized attribute (with `.` read as `_`), a space, the message.
   */
  function FullMessage(e: FieldError): (r: string)
    ensures e.attribute == "base" ==> r == e.message
    ensures e.attribute != "base" ==>
              var h := Humanize(ReplaceAll(e.attribute, '.', '_'));
              |r| == |h| + 1 + |e.message| && r[..|h|] == h && r[|h|] == ' ' && r[|h| + 1..] == e.message
  {
    if e.attribute == "base" then e.message
    else Humanize(ReplaceAll(e.attribute, '.', '_')) + " " + e.message
  }

  function FullMessages(errors: seq<FieldError>): (r: seq<string>)
    ensures |r| == |errors|
    ensures forall i :: 0 <= i < |errors| ==> r[i] == FullMessage(errors[i])
  {
    seq(|errors|, i requires 0 <= i < |errors| => FullMessage(errors[i]))
  }

  /** `TxnError#initialize`. */
  function NewTxnError(source: ErrorSource): (e: TxnError)
    ensures source.MessageSource? ==> e == TxnError(source.text, None, None)
    ensures source.TxnSource? ==>
              e.txn == Some(source.txn) && e.errors == Some(source.txnErrors)
              && e.message == Join(FullMessages(source.txnErrors), ", ")
    ensures source.ModelSource? ==>
              e.txn == None && e.errors == Some(source.modelErrors)
              && e.message == Join(FullMessages(source.modelErrors), ", ")
  {
    match source
    case MessageSource(text) => TxnError(text, None, None)
    case TxnSource(t, errors) => TxnError(Join(FullMessages(errors), ", "), Some(t), Some(errors))
    case ModelSource(errors) => TxnError(Join(FullMessages(errors), ", "), None, Some(errors))
  }

  /**
   * The message built from a non-empty error list starts with the first
   * full message, which is never empty unless the first error is a bare
   * `:base` one.
   */
  lemma {:induction false} MessageStartsWithFirstError(errors: seq<FieldError>)
    requires errors != []
    ensures var m := Join(FullMessages(errors), ", ");
            |m| >= |FullMessage(errors[0])| && m[..|FullMessage(errors[0])|] == FullMessage(errors[0])
    ensures errors[0].attribute != "base" ==> |FullMessage(errors[0])| > 0
  {
    var parts := FullMessages(errors);
    if |parts| > 1 {
      assert Join(parts, ", ") == parts[0] + ", " + Join(parts[1..], ", ");
    }
  }

  /** A single error on an attribute other than `:base` and without '.' reads as its humanized name, a space and its message. */
  lemma OneErrorMessage(attribute: string, message: string, h: string)
    requires attribute != "base" && forall i :: 0 <= i < |attribute| ==> attribute[i] != '.'
    requires Humanize(attribute) == h
    ensures NewTxnError(ModelSource([FieldError(attribute, message)])).message == h + " " + message
  {
    var e := FieldError(attribute, message);
    assert ReplaceAll(attribute, '.', '_') == attribute;
    assert FullMessage(e) == h + " " + message;
    assert FullMessages([e]) == [FullMessage(e)];
  }

  /** A single error's message is exactly its full message, e.g. "Date is invalid". */
  lemma SingleErrorMessage(attribute: string, message: string)
    requires attribute == "date" && message == "is invalid"
    ensures NewTxnError(ModelSource([FieldError(attribute, message)])).message == "Date is invalid"
  {
    HumanizeDate(attribute);
    assert attribute != "base" && forall i :: 0 <= i < |attribute| ==> attribute[i] != '.';
    OneErrorMessage(attribute, message, "Date");
    Phrase("Date", message, "Date is invalid");
  }

  /** The same for a two-word attribute: "From amount is invalid". */
  lemma TwoWordErrorMessage(attribute: string, message: string)
    requires attribute == "from_amount" && message == "is invalid"
    ensures NewTxnError(ModelSource([FieldError(attribute, message)])).message == "From amount is invalid"
  {
    HumanizeFromAmount(attribute, "From amount");
    assert attribute != "base" && forall i :: 0 <= i < |attribute| ==> attribute[i] != '.';
    OneErrorMessage(attribute, message, "From amount");
    Phrase("From amount", message, "From amount is invalid");
  }

  lemma Phrase(h: string, message: string, full: string)
    requires message == "is invalid" && (full == "Date is invalid" || full == "From amount is invalid")
    requires full == "Date is invalid" ==> h == "Date"
    requires full == "From amount is invalid" ==> h == "From amount"
    ensures h + " " + message == full
  {
  }

  /** An error on `:base` reads as its bare message, with no attribute in front. */
  lemma BaseErrorMessage(message: string, t: Txn)
    ensures NewTxnError(TxnSource(t, [FieldError("base", message)])).message == message
  {
    assert FullMessages([FieldError("base", message)]) == [message];
  }

  lemma HumanizeDate(a: string)
    requires a == "date"
    ensures Humanize(a) == "Date"
  {
    assert DropLeading(a, '_') == a;
    assert WithoutIdSuffix(a) == a;
    assert ReplaceAll(a, '_', ' ') == a;
    assert Downcase(a) == a;
  }

  lemma HumanizeFromAmount(a: string, h: string)
    requires a == "from_amount" && h == "From amount"
    ensures Humanize(a) == h
  {
    FromAmountSpaced(a, "from amount");
    FromAmountCapitalized("from amount", h);
  }

  lemma FromAmountCapitalized(spaced: string, h: string)
    requires spaced == "from amount" && h == "From amount"
    ensures Capitalized(Downcase(spaced)) == h
  {
    assert forall i :: 0 <= i < |spaced| ==> !('A' <= spaced[i] <= 'Z');
    assert Downcase(spaced) == spaced;
    assert h == [UpperChar(spaced[0])] + spaced[1..];
  }

  lemma FromAmountSpaced(a: string, spaced: string)
    requires a == "from_amount" && spaced == "from amount"
    ensures ReplaceAll(WithoutIdSuffix(DropLeading(a, '_')), '_', ' ') == spaced
  {
    assert DropLeading(a, '_') == a;
    assert WithoutIdSuffix(a) == a;
  }
}

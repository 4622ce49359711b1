/**
 * The hash key as both revisions write it. `_serializeHash` passes `$key`
 * to `json_encode` unconverted, and `json_encode` of an integer is a bare
 * number, so the hash `[1 => "x"]` is written `{1:"x"}`, which no JSON
 * reader accepts. The rest of the model uses `Encoder.KeyLiteral`, which
 * casts the key to a string first, as the array's own reader expects.
 */
module Findings {
  import opened Numerals
  import opened PhpValues
  import opened JsonText
  import Encoder

  /** `json_encode($key)` as `_serializeHash` writes it: an int key gives its digits, unquoted. */
  function KeyLiteralAsWritten(escape: Escaper, k: Key): (r: string)
    ensures k.StrK? ==> r == Encoder.KeyLiteral(escape, k)
  {
    match k
    case IntK(i) => Decimal(i)
    case StrK(s) => EncodedOrEmpty(escape, s)
  }

  /** A JSON member name: a string literal, between double quotes. */
  predicate QuotedName(t: string)
  {
    |t| >= 2 && t[0] == '"' && t[|t| - 1] == '"'
  }

  /** As written, no integer key is ever written as a member name. */
  lemma AsWrittenIntKeyBare(escape: Escaper, i: int)
    ensures !QuotedName(KeyLiteralAsWritten(escape, IntK(i)))
  {
    var t := Decimal(i);
    if i >= 0 {
      assert IsDigit(Natural(i)[0]);
    } else {
      assert t[0] == '-';
    }
  }

  /** The smallest case: the one-entry hash `[1 => "x"]` is written `{1:"x"}` in the compact layout. */
  lemma AsWrittenExample(escape: Escaper)
    ensures "{" + KeyLiteralAsWritten(escape, IntK(1)) + ":" + EncodedOrEmpty(escape, "x") + "}" == "{1:\"x\"}"
  {
    assert Plain("x") by {
      assert PlainChar("x"[0]);
    }
    assert Natural(1) == "1";
  }

  /** Decimal text is made of characters `json_encode` leaves unchanged. */
  lemma DecimalPlain(i: int)
    ensures Plain(Decimal(i))
  {
    var n := if i < 0 then -i else i;
    var d := Natural(n);
    assert forall j :: 0 <= j < |d| ==> PlainChar(d[j]) by {
      forall j | 0 <= j < |d| ensures PlainChar(d[j]) {
        assert IsDigit(d[j]);
      }
    }
    if i < 0 {
      var t := Decimal(i);
      forall j | 0 <= j < |t| ensures PlainChar(t[j]) {
        if j > 0 {
          assert t[j] == d[j - 1];
        }
      }
    }
  }

  /**
   * Corrected: the key is cast to a string before `json_encode`, so an
   * integer key is its decimal text between quotes, a member name that
   * `json_decode($text, true)` turns back into the same integer key.
   */
  lemma CorrectedIntKeyQuoted(escape: Escaper, i: int)
    requires InInt64(i)
    ensures Encoder.KeyLiteral(escape, IntK(i)) == "\"" + Decimal(i) + "\""
    ensures QuotedName(Encoder.KeyLiteral(escape, IntK(i)))
    ensures NormalizeKey(Decimal(i)) == IntK(i)
  {
    DecimalPlain(i);
    KeyStringRoundTrip(IntK(i));
  }

  /** Corrected, the same hash is written `{"1":"x"}`. */
  lemma CorrectedExample(escape: Escaper)
    ensures "{" + Encoder.KeyLiteral(escape, IntK(1)) + ":" + EncodedOrEmpty(escape, "x") + "}" == "{\"1\":\"x\"}"
  {
    CorrectedIntKeyQuoted(escape, 1);
    assert Plain("x") by {
      assert PlainChar("x"[0]);
    }
    assert Natural(1) == "1";
  }
}

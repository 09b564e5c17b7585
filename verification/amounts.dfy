/**
 * How the donation flows read a message while waiting for an amount
 * (tg_bot/donations.py and bot/handlers/donations.py read it the same way):
 * the cancellation phrases are checked first, on the stripped and lowercased
 * text; otherwise the amount is the integer spelled by every digit of the raw
 * text, in order, and it must be positive.
 */
module Amounts {
  import opened Text

  const CancelPhrases: set<string> := {"в другой раз", "не сейчас", "нет", "потом", "отмена"}

  predicate IsCancellation(raw: string)
  {
    Lower(Strip(raw)) in CancelPhrases
  }

  datatype AmountReading = Cancel | NoDigits | NotPositive | Amount(rubles: nat)

  predicate AllZeros(ds: string)
  {
    forall k :: 0 <= k < |ds| ==> ds[k] == '0'
  }

  function ReadAmount(raw: string): (r: AmountReading)
    ensures r == Cancel <==> IsCancellation(raw)
    ensures r == NoDigits <==> !IsCancellation(raw) && Digits(raw) == []
    ensures r == NotPositive <==> !IsCancellation(raw) && Digits(raw) != [] && AllZeros(Digits(raw))
    ensures r.Amount? ==> r.rubles > 0 && r.rubles == Value(Digits(raw))
  {
    if IsCancellation(raw) then Cancel
    else
      var ds := Digits(raw);
      if ds == [] then NoDigits
      else
        var n := Value(ds);
        ValueZeroIffAllZeros(ds);
        if n <= 0 then NotPositive else Amount(n)
  }

  predicate NoDigitIn(p: string)
  {
    forall i :: 0 <= i < |p| ==> !IsDigit(p[i])
  }

  lemma PhrasesHaveNoDigits()
    ensures forall p :: p in CancelPhrases ==> NoDigitIn(p)
  {
    assert NoDigitIn("в другой раз");
    assert NoDigitIn("не сейчас");
    assert NoDigitIn("нет");
    assert NoDigitIn("потом");
    assert NoDigitIn("отмена");
  }

  /** A text with a digit in it is none of the phrases. */
  lemma NotAPhrase(w: string, k: nat)
    requires k < |w| && IsDigit(w[k])
    ensures w !in CancelPhrases
  {
    PhrasesHaveNoDigits();
  }

  /**
   * A message holding any digit is never a cancellation, so checking the
   * phrases first never hides an amount.
   */
  lemma DigitMeansNoCancellation(raw: string)
    requires Digits(raw) != []
    ensures !IsCancellation(raw)
  {
    var k :| 0 <= k < |raw| && IsDigit(raw[k]);
    StripKeeps(raw, k);
    var j := k - LeadingSpaces(raw);
    LowerKeepsDigit(Strip(raw), j);
    NotAPhrase(Lower(Strip(raw)), j);
  }

  /** Reading a message that holds a digit depends only on its digits. */
  lemma ReadDigits(raw: string, ds: string)
    requires Digits(raw) == ds != []
    ensures ReadAmount(raw) == if AllZeros(ds) then NotPositive else Amount(Value(ds))
  {
    DigitMeansNoCancellation(raw);
  }

  /**
   * Any non-digit character inside or around an amount is ignored: a decimal
   * point ("12.50" reads as 1250), a minus sign ("-5" reads as 5), currency text.
   */
  lemma {:induction false} NonDigitIgnored(a: string, c: char, b: string)
    requires !IsDigit(c) && Digits(a + b) != []
    ensures ReadAmount(a + [c] + b) == ReadAmount(a + b)
  {
    DigitsAppend(a, [c] + b);
    DigitsAppend([c], b);
    DigitsAppend(a, b);
    assert Digits([c]) == [] by { assert [c][1..] == []; }
    assert a + [c] + b == a + ([c] + b);
    ReadDigits(a + [c] + b, Digits(a + b));
    ReadDigits(a + b, Digits(a + b));
  }

  /** Only zeros re-prompts for a positive amount. */
  lemma ZerosNotPositive(raw: string)
    requires raw != [] && forall k :: 0 <= k < |raw| ==> raw[k] == '0'
    ensures ReadAmount(raw) == NotPositive
  {
    DigitsOfDigits(raw);
    ReadDigits(raw, raw);
  }

  /** No phrase is blank, and none starts or ends with whitespace. */
  lemma PhrasesAreTrimmed(p: string)
    requires p in CancelPhrases
    ensures p != [] && !IsSpace(p[0]) && !IsSpace(p[|p| - 1])
  {
  }

  /**
   * The phrases match whatever the case and the surrounding whitespace: any
   * text that `lower()` maps onto a phrase cancels, with any whitespace
   * around it.
   */
  lemma CaseAndSpacesIgnored(a: string, t: string, b: string)
    requires forall k :: 0 <= k < |a| ==> IsSpace(a[k])
    requires forall k :: 0 <= k < |b| ==> IsSpace(b[k])
    requires Lower(t) in CancelPhrases
    ensures ReadAmount(a + t + b) == Cancel
  {
    PhrasesAreTrimmed(Lower(t));
    if IsSpace(t[0]) {
      LowerKeepsSpace(t, 0);
    }
    if IsSpace(t[|t| - 1]) {
      LowerKeepsSpace(t, |t| - 1);
    }
    StripPadded(a, t, b);
  }

  /** Lowercasing maps the capitalised phrase onto the listed one, letter by letter. */
  lemma LowerCapitalisedPhrase(phrase: string)
    requires phrase == "В Другой Раз"
    ensures Lower(phrase) == "в другой раз"
  {
    var lowered := Lower(phrase);
    forall k | 0 <= k < |phrase| ensures lowered[k] == "в другой раз"[k] {
      assert lowered[k] == LowerChar(phrase[k]);
    }
  }

  /** " В Другой Раз " cancels. */
  lemma CapitalisedPhraseCancels(phrase: string)
    requires phrase == "В Другой Раз"
    ensures ReadAmount([' '] + phrase + [' ']) == Cancel
  {
    LowerCapitalisedPhrase(phrase);
    CaseAndSpacesIgnored([' '], phrase, [' ']);
  }

  /** Text added around an amount that holds no digit changes nothing about it. */
  lemma {:induction false} DigitFreeTextIgnored(prefix: string, raw: string, suffix: string)
    requires Digits(prefix) == [] && Digits(suffix) == []
    ensures Digits(prefix + raw + suffix) == Digits(raw)
  {
    DigitsAppend(prefix, raw);
    DigitsAppend(prefix + raw, suffix);
  }
}

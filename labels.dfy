/**
 * Option label decoding. A stored option name carries the option's own primary key
 * in decimal on its end; the display label is obtained by slicing off as many trailing
 * characters as the key has digits (Python `s[:-k]`).
 */
module Labels {
  import opened Tables

  /** The decimal digit character for 0 <= d < 10. */
  function DigitChar(d: nat): (c: char)
    requires d < 10
    ensures '0' <= c <= '9'
    ensures (c as int) - ('0' as int) == d
  {
    (('0' as int) + d) as char
  }

  /** Python's `str(n)` for a non-negative integer: its decimal digits, most significant first. */
  function DecimalString(n: nat): (r: string)
    ensures 1 <= |r|
    ensures forall i :: 0 <= i < |r| ==> '0' <= r[i] <= '9'
    ensures n < 10 <==> |r| == 1
    ensures n == 0 || r[0] != '0'  // no leading zero, so `len(str(n))` is fixed
  {
    if n < 10 then [DigitChar(n)] else DecimalString(n / 10) + [DigitChar(n % 10)]
  }

  /** The numeric value of a string of decimal digits (Python `int(s)`). */
  function DigitsValue(s: string): nat
    requires forall i :: 0 <= i < |s| ==> '0' <= s[i] <= '9'
  {
    if s == [] then 0
    else 10 * DigitsValue(s[..|s| - 1]) + ((s[|s| - 1] as int) - ('0' as int))
  }

  /** `int(str(n)) == n`: the digit string names the key it was made from. */
  lemma {:induction false} DecimalStringValue(n: nat)
    ensures DigitsValue(DecimalString(n)) == n
  {
    var r := DecimalString(n);
    if n >= 10 {
      DecimalStringValue(n / 10);
      assert r[..|r| - 1] == DecimalString(n / 10);
      assert r[|r| - 1] == DigitChar(n % 10);
      assert DigitsValue(r) == 10 * (n / 10) + n % 10;
    } else {
      assert r == [DigitChar(n)];
    }
  }

  /** Different keys have different digit strings, so the suffix identifies the option. */
  lemma DecimalStringInjective(m: nat, n: nat)
    requires DecimalString(m) == DecimalString(n)
    ensures m == n
  {
    DecimalStringValue(m);
    DecimalStringValue(n);
  }

  /** Where Python's slice `s[:stop]` ends, for a sequence of length `len` and any integer stop. */
  function SliceEnd(len: nat, stop: int): (e: nat)
    ensures e <= len
  {
    if stop < 0 then (if len + stop < 0 then 0 else len + stop)
    else if stop < len then stop else len
  }

  /**
   * `remove_digits_from_end(string, num_digits)`, that is `string[:-num_digits]`.
   * Total: a slice never raises. For k >= 1 it drops the last k characters (all of
   * them when k > |s|); for k == 0 it is empty; for k < 0 it keeps the first -k.
   */
  function RemoveDigitsFromEnd(s: string, numDigits: int): (r: string)
    ensures r <= s
    ensures 1 <= numDigits ==> |r| == if numDigits <= |s| then |s| - numDigits else 0
    ensures numDigits == 0 ==> r == []
    ensures numDigits < 0 ==> |r| == if -numDigits <= |s| then -numDigits else |s|
  {
    s[..SliceEnd(|s|, -numDigits)]
  }

  /** The name as the content layer stores it: display text followed by the option's key. */
  function EncodedName(display: string, pk: nat): (r: string)
    ensures |r| == |display| + |DecimalString(pk)|
    ensures r[..|display|] == display
    ensures r[|display|..] == DecimalString(pk)
  {
    display + DecimalString(pk)
  }

  /** Decoding undoes encoding: `remove_digits_from_end(name + str(pk), len(str(pk))) == name`. */
  lemma DecodeEncodedName(display: string, pk: nat)
    ensures RemoveDigitsFromEnd(EncodedName(display, pk), |DecimalString(pk)|) == display
  {
  }

  /** The label shown for one option: its stored name with `len(str(pk))` characters removed. */
  function DisplayLabel(name: string, pk: nat): (r: string)
    ensures r <= name
    ensures |r| == if |DecimalString(pk)| <= |name| then |name| - |DecimalString(pk)| else 0
    ensures r + name[|r|..] == name
  {
    RemoveDigitsFromEnd(name, |DecimalString(pk)|)
  }

  /** One entry of `modified_options`: the option row and its decoded label. */
  datatype LabelledOption = LabelledOption(option: AnswerOption, optionName: string)

  /**
   * The loop building `modified_options`: one entry per option, in the same order,
   * each carrying the label decoded from that option's stored name and key.
   */
  method LabelOptions(options: seq<AnswerOption>) returns (modified: seq<LabelledOption>)
    ensures |modified| == |options|
    ensures forall i :: 0 <= i < |options| ==>
      modified[i] == LabelledOption(options[i], DisplayLabel(options[i].name, options[i].id))
  {
    modified := [];
    for i := 0 to |options|
      invariant |modified| == i
      invariant forall j :: 0 <= j < i ==>
        modified[j] == LabelledOption(options[j], DisplayLabel(options[j].name, options[j].id))
    {
      var pkLength := |DecimalString(options[i].id)|;
      var optionName := RemoveDigitsFromEnd(options[i].name, pkLength);
      modified := modified + [LabelledOption(options[i], optionName)];
    }
  }

  /**
   * When every option was stored with the encoding, the labels produced by the loop
   * are exactly the display texts, in order.
   */
  lemma LabelsRecoverDisplayTexts(options: seq<AnswerOption>, display: seq<string>, modified: seq<LabelledOption>)
    requires |display| == |options|
    requires forall i :: 0 <= i < |options| ==> options[i].name == EncodedName(display[i], options[i].id)
    requires |modified| == |options|
    requires forall i :: 0 <= i < |options| ==>
      modified[i] == LabelledOption(options[i], DisplayLabel(options[i].name, options[i].id))
    ensures forall i :: 0 <= i < |options| ==> modified[i].optionName == display[i]
  {
    forall i | 0 <= i < |options|
      ensures modified[i].optionName == display[i]
    {
      DecodeEncodedName(display[i], options[i].id);
    }
  }
}

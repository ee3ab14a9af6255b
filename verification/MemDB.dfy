/** `MemDB`: a map from strings to strings with typed writers and readers. */
module MemDBClass {
  import opened Base
  import opened Decimal

  newtype Int32 = x: int | -0x8000_0000 <= x < 0x8000_0000

  // The largest finite float, (2^24 - 1) * 2^104, in millionths.
  const FLOAT_MAX: nat := 340282346638528859811704183484516925440 * 1000000

  type FiniteFloat = f: Float | f.millionths <= FLOAT_MAX witness Float(false, 0)

  const BUFFER: nat := 256

  // snprintf into valueStr: what does not fit, with the terminating zero, is cut off.
  function Snprintf(text: string): string {
    if |text| < BUFFER then text else text[..BUFFER - 1]
  }

  // ---------------------------------------------------------------- histories

  datatype Write =
    | Reset
    | SetText(key: string, text: string)
    | SetInt(key: string, i: Int32)
    | SetFloat(key: string, f: FiniteFloat)

  function TextOf(w: Write): string
    requires !w.Reset?
  {
    match w
    case SetText(_, text) => text
    case SetInt(_, i) => Snprintf(PrintInt(i as int))
    case SetFloat(_, f) => Snprintf(PrintFloat(f))
  }

  function Applied(store: map<string, string>, w: Write): map<string, string> {
    if w.Reset? then map[] else store[w.key := TextOf(w)]
  }

  function Store(history: seq<Write>): map<string, string> {
    if |history| == 0 then map[] else Applied(Store(Init(history)), Last(history))
  }

  // ---------------------------------------------------------------- readers

  function TextAt(store: map<string, string>, key: string): string {
    if key in store then store[key] else ""
  }

  function BoolAt(store: map<string, string>, key: string, d: bool): bool {
    if TextAt(store, key) == "" then d else TextAt(store, key) == "true"
  }

  // None: the number does not fit an int, and C leaves the result of atoi undefined.
  function IntAt(store: map<string, string>, key: string, d: Int32): Option<Int32> {
    if TextAt(store, key) == "" then Some(d)
    else
      var v := Atoi(TextAt(store, key));
      if -0x8000_0000 <= v < 0x8000_0000 then Some(v as Int32) else None
  }

  class MemDB {
    var keyValue: map<string, string>

    constructor ()
      ensures keyValue == Store([])
    {
      keyValue := map[];
    }

    method Reset()
      modifies this
      ensures keyValue == Applied(old(keyValue), Write.Reset)
    {
      keyValue := map[];
    }

    method SetValue(key: string, value: string)
      modifies this
      ensures keyValue == Applied(old(keyValue), SetText(key, value))
    {
      if key !in keyValue {
        keyValue := keyValue + map[key := value];
        return;
      }
      keyValue := keyValue[key := value];
    }

    method SetIntValue(key: string, value: Int32)
      modifies this
      ensures keyValue == Applied(old(keyValue), SetInt(key, value))
    {
      var valueStr := Snprintf(PrintInt(value as int));
      SetValue(key, valueStr);
    }

    method SetFloatValue(key: string, value: FiniteFloat)
      modifies this
      ensures keyValue == Applied(old(keyValue), SetFloat(key, value))
    {
      var valueStr := Snprintf(PrintFloat(value));
      SetValue(key, valueStr);
    }

    method GetValue(key: string) returns (ret: string)
      ensures ret == TextAt(keyValue, key)
    {
      if key in keyValue {
        return keyValue[key];
      }
      return "";
    }

    method GetBoolValue(key: string, d: bool := false) returns (ret: bool)
      ensures ret == BoolAt(keyValue, key, d)
    {
      var text := GetValue(key);
      if |text| == 0 {
        return d;
      }
      return if text == "true" then true else false;
    }

    method GetIntValue(key: string, d: Int32 := 0) returns (ret: Option<Int32>)
      ensures ret == IntAt(keyValue, key, d)
    {
      var text := GetValue(key);
      if |text| == 0 {
        return Some(d);
      }
      var v := Atoi(text);
      return if -0x8000_0000 <= v < 0x8000_0000 then Some(v as Int32) else None;
    }
  }

  // ---------------------------------------------------------------- what a read returns

  predicate Writes(w: Write, key: string) {
    !w.Reset? && w.key == key
  }

  // The write at index i is the last one to the key, and nothing has been reset since.
  predicate LastWrite(history: seq<Write>, key: string, i: nat) {
    i < |history| && Writes(history[i], key) &&
    forall j | i < j < |history| :: !history[j].Reset? && !Writes(history[j], key)
  }

  // From index i on nothing is written to the key, and i is the start or just after a reset.
  predicate Blank(history: seq<Write>, key: string, i: nat) {
    i <= |history| && (i == 0 || history[i - 1].Reset?) &&
    forall j | i <= j < |history| :: !Writes(history[j], key)
  }

  lemma {:induction false} ReadAfterWrite(store: map<string, string>, w: Write, key: string)
    ensures Writes(w, key) ==> TextAt(Applied(store, w), key) == TextOf(w)
    ensures w.Reset? ==> TextAt(Applied(store, w), key) == ""
    ensures !w.Reset? && !Writes(w, key) ==> TextAt(Applied(store, w), key) == TextAt(store, key)
  {
  }

  // A later write to another key changes nothing for this key.
  lemma {:induction false} ReadSurvives(history: seq<Write>, key: string)
    requires |history| > 0 && !Last(history).Reset? && !Writes(Last(history), key)
    ensures TextAt(Store(history), key) == TextAt(Store(Init(history)), key)
  {
    ReadAfterWrite(Store(Init(history)), Last(history), key);
  }

  /** History refinement, first half: after any sequence of writes and resets, a key reads as the text of the last write
      to it, if nothing was reset since. */
  lemma {:induction false} LastWriteIsRead(history: seq<Write>, key: string, i: nat)
    requires LastWrite(history, key, i)
    ensures TextAt(Store(history), key) == TextOf(history[i])
  {
    if i == |history| - 1 {
      ReadAfterWrite(Store(Init(history)), history[i], key);
    } else {
      LastWriteIsRead(Init(history), key, i);
      ReadSurvives(history, key);
    }
  }

  /** Second half: it reads as the empty string if nothing was written to it since the last reset. */
  lemma {:induction false} BlankIsEmpty(history: seq<Write>, key: string, i: nat)
    requires Blank(history, key, i)
    ensures TextAt(Store(history), key) == ""
  {
    if |history| > 0 {
      if Last(history).Reset? {
        ReadAfterWrite(Store(Init(history)), Last(history), key);
      } else {
        BlankIsEmpty(Init(history), key, i);
        ReadSurvives(history, key);
      }
    }
  }

  /** And one of the two is always the case. */
  lemma {:induction false} WrittenOrBlank(history: seq<Write>, key: string)
    ensures (exists i :: LastWrite(history, key, i)) != (exists i :: Blank(history, key, i))
  {
    if |history| == 0 || Last(history).Reset? {
      assert Blank(history, key, |history|);
    } else if Writes(Last(history), key) {
      assert LastWrite(history, key, |history| - 1);
    } else {
      WrittenOrBlank(Init(history), key);
      if i :| LastWrite(Init(history), key, i) {
        assert LastWrite(history, key, i);
      } else {
        var i :| Blank(Init(history), key, i);
        assert Blank(history, key, i);
      }
    }
  }

  /** The typed readers return their default, whatever it is, exactly when the text is empty. */
  lemma {:induction false} DefaultExactlyWhenEmpty(store: map<string, string>, key: string)
    ensures (forall d :: IntAt(store, key, d) == Some(d)) <==> TextAt(store, key) == ""
    ensures (forall d :: BoolAt(store, key, d) == d) <==> TextAt(store, key) == ""
  {
    if TextAt(store, key) != "" {
      assert IntAt(store, key, 0) == IntAt(store, key, 1);
      assert BoolAt(store, key, false) == BoolAt(store, key, true);
    }
  }

  // ---------------------------------------------------------------- numbers

  lemma {:induction false} Pow10Of10()
    ensures Pow10(10) == 10000000000
  {
    assert Pow10(5) == 100000;
  }

  /** A printed int is never empty, has at most 11 characters, and so is never cut off. */
  lemma {:induction false} IntTextFits(i: Int32)
    ensures 1 <= |PrintInt(i as int)| <= 11
    ensures TextOf(SetInt("", i)) == PrintInt(i as int)
  {
    Pow10Of10();
    DigitsLength(if i < 0 then -(i as int) else i as int, 10);
  }

  lemma {:induction false} Pow10Adds(a: nat, b: nat)
    ensures Pow10(a + b) == Pow10(a) * Pow10(b)
  {
    if a > 0 {
      Pow10Adds(a - 1, b);
    }
  }

  /** The largest float has 24 binary digits, all of them ones, and 104 zeros after them. */
  lemma {:induction false} LargestFloat()
    ensures FLOAT_MAX == 0xFF_FFFF * 0x100_0000_0000_0000_0000_0000_0000 * 1000000
  {
  }

  /** A printed finite float has at most 47 characters, and is never cut off either. */
  lemma {:induction false} FloatTextFits(f: FiniteFloat)
    ensures 8 <= |PrintFloat(f)| <= 47
    ensures TextOf(SetFloat("", f)) == PrintFloat(f)
  {
    Pow10Of10();
    Pow10Adds(10, 10);
    Pow10Adds(20, 10);
    Pow10Adds(30, 9);
    assert Pow10(9) == 1000000000;
    DigitsLength(f.millionths / 1000000, 39);
  }

  /** A string is read back as it was written, whatever is written to other keys. */
  lemma {:induction false} StringRoundTrip(history: seq<Write>, key: string, i: nat)
    requires LastWrite(history, key, i) && history[i].SetText?
    ensures TextAt(Store(history), key) == history[i].text
  {
    LastWriteIsRead(history, key, i);
  }

  /** An int reads as text: its numeral, after a minus sign exactly if it is negative. */
  lemma {:induction false} IntReadAsText(history: seq<Write>, key: string, i: nat)
    requires LastWrite(history, key, i) && history[i].SetInt?
    ensures var v, text := history[i].i as int, TextAt(Store(history), key);
            && (v >= 0 ==> Numeral(text, v))
            && (v < 0 ==> |text| > 0 && text[0] == '-' && Numeral(text[1..], -v))
  {
    LastWriteIsRead(history, key, i);
    IntTextFits(history[i].i);
    IntText(history[i].i as int);
  }

  /** A float reads as text: sign, whole part and six decimals. */
  lemma {:induction false} FloatReadAsText(history: seq<Write>, key: string, i: nat)
    returns (whole: string, frac: string)
    requires LastWrite(history, key, i) && history[i].SetFloat?
    ensures var f := history[i].f;
            && TextAt(Store(history), key) == (if f.negative then "-" else "") + whole + "." + frac
            && Numeral(whole, f.millionths / 1000000)
            && |frac| == 6 && AllDigits(frac) && ValueFrom(0, frac) == f.millionths % 1000000
  {
    LastWriteIsRead(history, key, i);
    FloatTextFits(history[i].f);
    whole, frac := FloatText(history[i].f);
  }

  /** A string read as an int: the number at its start, after white space and with its sign, whatever follows; undefined
      exactly if that number does not fit. */
  lemma {:induction false} StringReadAsInt(history: seq<Write>, key: string, i: nat, d: Int32, p: Parts)
    requires LastWrite(history, key, i) && history[i].SetText?
    requires p.Proper() && p.Text() == history[i].text != ""
    ensures IntAt(Store(history), key, d) ==
            if -0x8000_0000 <= p.Value() < 0x8000_0000 then Some(p.Value() as Int32) else None
  {
    LastWriteIsRead(history, key, i);
    AtoiReads(p);
  }

  /** Integer round trip: an int written under a key is read back as itself, for every int, every default, and whatever
      is written to other keys in between. */
  lemma {:induction false} IntRoundTrip(history: seq<Write>, key: string, i: nat, d: Int32)
    requires LastWrite(history, key, i) && history[i].SetInt?
    ensures IntAt(Store(history), key, d) == Some(history[i].i)
  {
    LastWriteIsRead(history, key, i);
    IntTextFits(history[i].i);
    AtoiOfPrintInt(history[i].i as int);
  }

  /** A float read as an int gives the value printed, in millionths, truncated toward zero if that fits an int, and is
      undefined exactly if it does not. */
  lemma {:induction false} FloatReadAsInt(history: seq<Write>, key: string, i: nat, d: Int32)
    requires LastWrite(history, key, i) && history[i].SetFloat?
    ensures var f := history[i].f;
            var whole := f.millionths / 1000000;
            var v := if f.negative then 0 - whole else whole;
            IntAt(Store(history), key, d) ==
            if -0x8000_0000 <= v < 0x8000_0000 then Some(v as Int32) else None
  {
    LastWriteIsRead(history, key, i);
    FloatTextFits(history[i].f);
    AtoiOfPrintFloat(history[i].f);
  }

  lemma {:induction false} NumberTextIsNotTrue(w: Write)
    requires w.SetInt? || w.SetFloat?
    ensures TextOf(w) != "" && TextOf(w) != "true"
  {
    if w.SetInt? {
      IntTextFits(w.i);
      var v := w.i as int;
      assert PrintInt(v)[0] == '-' || IsDigit(PrintInt(v)[0]);
    } else {
      FloatTextFits(w.f);
      var text := PrintFloat(w.f);
      assert text[0] == '-' || text[0] == Digits(w.f.millionths / 1000000)[0];
    }
    assert "true"[0] == 't';
  }

  /** A key reads as true, whatever the default, exactly if the last write to it was the text "true", and as false
      exactly if it was any other non-empty text or a number. In particular a bool, which C++ passes to the int
      overload, always reads as false. */
  lemma {:induction false} BoolReads(history: seq<Write>, key: string, i: nat)
    requires LastWrite(history, key, i)
    ensures (forall d :: BoolAt(Store(history), key, d)) <==> history[i] == SetText(key, "true")
    ensures (forall d :: !BoolAt(Store(history), key, d)) <==>
              history[i].SetInt? || history[i].SetFloat? || (history[i].text != "" && history[i].text != "true")
  {
    LastWriteIsRead(history, key, i);
    var store := Store(history);
    if history[i].SetInt? || history[i].SetFloat? {
      NumberTextIsNotTrue(history[i]);
    }
    if TextAt(store, key) == "" {
      assert !BoolAt(store, key, false) && BoolAt(store, key, true);
    } else {
      assert BoolAt(store, key, false) == BoolAt(store, key, true) == (TextAt(store, key) == "true");
    }
  }
}

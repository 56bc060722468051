/** The browser's `localStorage` as the dashboard uses it (src/utils/localStorage.ts): a map
    from string keys to stored items, written by `saveToLocalStorage` and read back by
    `getFromLocalStorage`, plus the auto-incrementing code generator `generateCode`. */
module LocalStore {
  import opened Wrappers
  import opened Text
  import opened JsonValue

  /** What is stored under a key: a document written by `saveToLocalStorage` (the text
      `JSON.stringify` makes, which parses back to the same value and is never empty), or
      text written directly with `localStorage.setItem`. */
  datatype Item = Doc(value: Json) | Raw(text: string)

  type Entries = map<string, Item>

  /** `!!localStorage.getItem(key)`: the key holds non-empty text. */
  predicate Present(m: Entries, key: string) {
    key in m && (m[key].Doc? || m[key].text != "")
  }

  /** `getFromLocalStorage(key, defaultValue)`: a stored document parses back to the value
      saved; a missing key or empty text gives the default. Raw text is treated as text
      `JSON.parse` rejects, which also gives the default. */
  function Read(m: Entries, key: string, default: Json): (r: Json)
    ensures !Present(m, key) ==> r == default
    ensures key in m && m[key].Doc? ==> r == m[key].value
  {
    if key in m && m[key].Doc? then m[key].value else default
  }

  /** `saveToLocalStorage(key, data)`. */
  function Write(m: Entries, key: string, data: Json): Entries {
    m[key := Doc(data)]
  }

  /** Saving then reading the same key gives the saved value back, and every other key
      reads as before. */
  lemma ReadAfterWrite(m: Entries, key: string, data: Json, other: string, default: Json)
    ensures Present(Write(m, key, data), key)
    ensures Read(Write(m, key, data), key, default) == data
    ensures other != key ==> Read(Write(m, key, data), other, default) == Read(m, other, default)
    ensures other != key ==> Present(Write(m, key, data), other) == Present(m, other)
  {
  }

  /** The storage object itself, shared by the screens that write to it. */
  class Store {
    var entries: Entries

    constructor (initial: Entries)
      ensures entries == initial
    {
      entries := initial;
    }

    /** `saveToLocalStorage(key, data)`; a failing `setItem` (quota) is not modelled. */
    method Save(key: string, data: Json)
      modifies this
      ensures entries == Write(old(entries), key, data)
    {
      entries := entries[key := Doc(data)];
    }

    /** `localStorage.setItem(key, text)`. */
    method SetItem(key: string, text: string)
      modifies this
      ensures entries == old(entries)[key := Raw(text)]
    {
      entries := entries[key := Raw(text)];
    }

    /** `localStorage.removeItem(key)`. */
    method RemoveItem(key: string)
      modifies this
      ensures entries == old(entries) - {key}
    {
      entries := entries - {key};
    }
  }

  // ---------------------------------------------------------------------
  // generateCode(prefix, items)
  // ---------------------------------------------------------------------

  /** The number `generateCode` reads from one existing code: codes that do not start with the
      prefix are skipped, the rest lose the prefix (`replace` removes its first occurrence,
      which is at the front) and go through `parseInt`; NaN is skipped. */
  function CodeNumber(prefix: string, code: string): Option<int> {
    if StartsWith(code, prefix) then ParseInt(code[|prefix|..]) else None
  }

  /** The numbers read from each existing code, in order. */
  function CodeNumbers(prefix: string, codes: seq<string>): (r: seq<Option<int>>)
    ensures |r| == |codes|
  {
    if |codes| == 0 then []
    else CodeNumbers(prefix, codes[..|codes| - 1]) + [CodeNumber(prefix, codes[|codes| - 1])]
  }

  /** Entry `i` is the number read from code `i`. */
  lemma {:induction false} CodeNumbersIndex(prefix: string, codes: seq<string>, i: nat)
    requires i < |codes|
    ensures CodeNumbers(prefix, codes)[i] == CodeNumber(prefix, codes[i])
  {
    var init := codes[..|codes| - 1];
    if i < |init| {
      CodeNumbersIndex(prefix, init, i);
      assert init[i] == codes[i];
    }
  }

  /** Some entry is a number. */
  predicate HasNumber(nums: seq<Option<int>>) {
    exists i :: 0 <= i < |nums| && nums[i].Some?
  }

  /** `nums.length > 0 ? Math.max(...nums) : 0` over the numbers that are present. */
  function MaxNumber(nums: seq<Option<int>>): int
  {
    if |nums| == 0 then 0
    else
      var init := nums[..|nums| - 1];
      var last := nums[|nums| - 1];
      if last.None? then MaxNumber(init)
      else if !HasNumber(init) then last.value
      else if last.value > MaxNumber(init) then last.value else MaxNumber(init)
  }

  /** Some code carries the prefix and a number. */
  predicate HasNumberedCode(prefix: string, codes: seq<string>) {
    HasNumber(CodeNumbers(prefix, codes))
  }

  /** `existingCodes.length > 0 ? Math.max(...existingCodes) : 0`. */
  function MaxCode(prefix: string, codes: seq<string>): int {
    MaxNumber(CodeNumbers(prefix, codes))
  }

  /** `generateCode(prefix, items)`: the prefix followed by the largest existing number plus
      one, zero-padded to at least three characters. */
  function GenerateCode(prefix: string, codes: seq<string>): (r: string)
    ensures StartsWith(r, prefix)
  {
    CodeAfter(prefix, MaxCode(prefix, codes))
  }

  /** The code that follows the number `max`: the prefix, then `max + 1` padded with zeros to
      at least three characters. */
  function CodeAfter(prefix: string, max: int): string {
    prefix + PadStart(IntToString(max + 1), 3, '0')
  }

  /** The maximum bounds every number present. */
  lemma {:induction false} MaxNumberBounds(nums: seq<Option<int>>, i: nat)
    requires i < |nums| && nums[i].Some?
    ensures nums[i].value <= MaxNumber(nums)
  {
    var init := nums[..|nums| - 1];
    if i < |nums| - 1 {
      assert init[i] == nums[i];
      MaxNumberBounds(init, i);
    }
  }

  /** When some number is present, the maximum is one of them. */
  lemma {:induction false} MaxNumberAttained(nums: seq<Option<int>>)
    requires HasNumber(nums)
    ensures exists i :: 0 <= i < |nums| && nums[i] == Some(MaxNumber(nums))
  {
    var init := nums[..|nums| - 1];
    var n := |nums| - 1;
    if HasNumber(init) {
      MaxNumberAttained(init);
      var j :| 0 <= j < |init| && init[j] == Some(MaxNumber(init));
      assert init[j] == nums[j];
    } else {
      assert forall j :: 0 <= j < n ==> init[j] == nums[j];
      assert nums[n] == Some(MaxNumber(nums));
    }
  }

  /** With no number present, the maximum is 0. */
  lemma {:induction false} MaxNumberDefault(nums: seq<Option<int>>)
    requires !HasNumber(nums)
    ensures MaxNumber(nums) == 0
  {
    if |nums| > 0 {
      var init := nums[..|nums| - 1];
      assert forall j :: 0 <= j < |init| ==> init[j] == nums[j];
      MaxNumberDefault(init);
    }
  }

  /** The maximum bounds every number read from an existing code. */
  lemma MaxCodeBounds(prefix: string, codes: seq<string>, i: nat)
    requires i < |codes| && CodeNumber(prefix, codes[i]).Some?
    ensures CodeNumber(prefix, codes[i]).value <= MaxCode(prefix, codes)
  {
    CodeNumbersIndex(prefix, codes, i);
    MaxNumberBounds(CodeNumbers(prefix, codes), i);
  }

  /** When some code is numbered, the maximum is the number of one of them. */
  lemma MaxCodeAttained(prefix: string, codes: seq<string>)
    requires HasNumberedCode(prefix, codes)
    ensures exists i :: 0 <= i < |codes| && CodeNumber(prefix, codes[i]) == Some(MaxCode(prefix, codes))
  {
    var nums := CodeNumbers(prefix, codes);
    MaxNumberAttained(nums);
    var i :| 0 <= i < |nums| && nums[i] == Some(MaxNumber(nums));
    CodeNumbersIndex(prefix, codes, i);
    assert CodeNumber(prefix, codes[i]) == Some(MaxCode(prefix, codes));
  }

  /** Every number read from an existing code is below the number the generated code reads
      back as, whatever the maximum (negative numbers included). */
  lemma GeneratedNumberExceedsExisting(prefix: string, codes: seq<string>, i: nat)
    requires i < |codes| && CodeNumber(prefix, codes[i]).Some?
    ensures CodeNumber(prefix, GenerateCode(prefix, codes)).Some?
    ensures CodeNumber(prefix, codes[i]).value < CodeNumber(prefix, GenerateCode(prefix, codes)).value
  {
    MaxCodeBounds(prefix, codes, i);
    CodeAfterNumber(prefix, MaxCode(prefix, codes));
  }

  /** With no code that carries the prefix and a number, the first code is prefix + "001". */
  lemma FirstGeneratedCode(prefix: string, codes: seq<string>)
    requires !HasNumberedCode(prefix, codes)
    ensures GenerateCode(prefix, codes) == prefix + "001"
  {
    MaxNumberDefault(CodeNumbers(prefix, codes));
    FirstCode(prefix);
  }

  /** The code after 0 is prefix + "001". */
  lemma FirstCode(prefix: string)
    ensures CodeAfter(prefix, 0) == prefix + "001"
  {
    SmallNumerals();
    assert IntToString(1) == "1";
    assert PadStart("1", 3, '0') == "001";
  }

  /** A code without the prefix, or whose remainder is not a number, does not change the result. */
  lemma IgnoredCode(prefix: string, codes: seq<string>, c: string)
    requires !StartsWith(c, prefix) || ParseInt(c[|prefix|..]).None?
    ensures GenerateCode(prefix, codes + [c]) == GenerateCode(prefix, codes)
  {
    assert CodeNumber(prefix, c).None?;
    IgnoredCodeNumber(prefix, codes, c);
    SameMaxSameCode(prefix, codes + [c], codes);
  }

  /** The generated code depends only on the largest number. */
  lemma SameMaxSameCode(prefix: string, a: seq<string>, b: seq<string>)
    requires MaxCode(prefix, a) == MaxCode(prefix, b)
    ensures GenerateCode(prefix, a) == GenerateCode(prefix, b)
  {
  }

  /** The maximum is unchanged by a code without a number. */
  lemma IgnoredCodeNumber(prefix: string, codes: seq<string>, c: string)
    requires CodeNumber(prefix, c).None?
    ensures MaxCode(prefix, codes + [c]) == MaxCode(prefix, codes)
  {
    CodeNumbersSnoc(prefix, codes, c);
    MaxNumberSkipsNone(CodeNumbers(prefix, codes));
  }

  /** A missing number at the end does not change the maximum. */
  lemma MaxNumberSkipsNone(nums: seq<Option<int>>)
    ensures MaxNumber(nums + [None]) == MaxNumber(nums)
  {
    assert (nums + [None])[..|nums|] == nums;
  }

  /** Adding a code adds its number at the end. */
  lemma CodeNumbersSnoc(prefix: string, codes: seq<string>, c: string)
    ensures CodeNumbers(prefix, codes + [c]) == CodeNumbers(prefix, codes) + [CodeNumber(prefix, c)]
  {
    assert (codes + [c])[..|codes|] == codes;
  }

  /** Round trip: while the largest existing number is not below -1, the generated code reads
      back as exactly that number plus one. */
  lemma GeneratedCodeReadsBack(prefix: string, codes: seq<string>)
    requires MaxCode(prefix, codes) >= -1
    ensures CodeNumber(prefix, GenerateCode(prefix, codes)) == Some(MaxCode(prefix, codes) + 1)
  {
    CodeAfterReadsBack(prefix, MaxCode(prefix, codes));
  }

  /** The code after a number not below -1 reads back as that number plus one. */
  lemma CodeAfterReadsBack(prefix: string, max: int)
    requires max >= -1
    ensures CodeNumber(prefix, CodeAfter(prefix, max)) == Some(max + 1)
  {
    var n: nat := max + 1;
    var r := CodeAfter(prefix, max);
    var text := PadStart(NatToString(n), 3, '0');
    assert r == prefix + text;
    assert r[..|prefix|] == prefix;
    assert r[|prefix|..] == text;
    ParseIntOfPadded(n, 3);
  }

  /** The number the code after `max` reads back as, for every `max`: `max + 1`, except that
      a negative one-digit successor such as -4 is padded to "0-4", which `parseInt` reads
      as 0. */
  lemma CodeAfterNumber(prefix: string, max: int)
    ensures CodeNumber(prefix, CodeAfter(prefix, max)) == Some(if -10 < max + 1 < 0 then 0 else max + 1)
  {
    if max >= -1 {
      CodeAfterReadsBack(prefix, max);
    } else {
      var text := PadStart(IntToString(max + 1), 3, '0');
      var r := CodeAfter(prefix, max);
      assert r == prefix + text;
      assert r[..|prefix|] == prefix;
      assert r[|prefix|..] == text;
      PaddedNegativeParses(-(max + 1));
    }
  }

  /** `parseInt` of the padded text of a negative number -k. */
  lemma PaddedNegativeParses(k: nat)
    requires k >= 1
    ensures ParseInt(PadStart(IntToString(-(k as int)), 3, '0')) == Some(if k < 10 then 0 else -(k as int))
  {
    var digits := NatToString(k);
    assert IntToString(-(k as int)) == "-" + digits;
    if k < 10 {
      assert |digits| == 1;
      var text := PadStart("-" + digits, 3, '0');
      assert text == ['0', '-', digits[0]];
      ZeroDashParses(digits[0]);
    } else {
      assert |digits| >= 2;
      var text := "-" + digits;
      assert PadStart(text, 3, '0') == text;
      assert text[0] == '-' && text[1..] == digits;
      NegativeDigitsParse(text);
      NatToStringValue(k);
    }
  }

  /** "0-d" reads as 0: the digits stop at the dash. */
  lemma ZeroDashParses(d: char)
    ensures ParseInt(['0', '-', d]) == Some(0)
  {
    var text := ['0', '-', d];
    assert ParseInt(text) == ParseSigned(text) by {
      assert !IsJsWhitespace(text[0]);
    }
    assert DigitPrefix(text[1..]) == [];
    assert DigitPrefix(text) == "0";
    assert DigitsValue("0") == 0 by {
      assert "0"[..0] == [];
    }
  }

  /** "-" followed by digits reads as minus their value. */
  lemma NegativeDigitsParse(text: string)
    requires |text| > 1 && text[0] == '-' && AllDigits(text[1..])
    ensures ParseInt(text) == Some(-(DigitsValue(text[1..]) as int))
  {
    NotWhitespaceStart(text);
    SignedDigitsParse(text);
  }

  /** Text not starting with white space is read by `ParseSigned` directly. */
  lemma NotWhitespaceStart(text: string)
    requires |text| > 0 && (text[0] == '-' || IsDigit(text[0]))
    ensures ParseInt(text) == ParseSigned(text)
  {
  }

  lemma SignedDigitsParse(text: string)
    requires |text| > 1 && text[0] == '-' && AllDigits(text[1..])
    ensures ParseSigned(text) == Some(-(DigitsValue(text[1..]) as int))
  {
    DigitPrefixOfDigits(text[1..]);
  }

  /** Generating a code, adding it, and generating again moves the number up by exactly one:
      successive codes are strictly increasing. */
  lemma NextGeneratedCode(prefix: string, codes: seq<string>)
    requires MaxCode(prefix, codes) >= -1
    ensures MaxCode(prefix, codes + [GenerateCode(prefix, codes)]) == MaxCode(prefix, codes) + 1
  {
    var nums := CodeNumbers(prefix, codes);
    CodeNumbersSnoc(prefix, codes, GenerateCode(prefix, codes));
    GeneratedCodeReadsBack(prefix, codes);
    var all := nums + [Some(MaxCode(prefix, codes) + 1)];
    assert all[..|nums|] == nums;
    if !HasNumber(nums) {
      MaxNumberDefault(nums);
    }
  }
}

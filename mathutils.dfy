// Base-36 digit conversion and the power-of-two lookup used for map widths.
module MathUtils {
  import opened Js
  import JsText

  /** What `base10ToBase36` returns: a one-character string above 9, otherwise the number itself. */
  datatype Base36Value = Letter(unit: int) | Number(n: int)

  /**
   * `base10ToBase36(i)`: for i > 9 the character with code 'a' + (i - 10)
   * (`String.fromCharCode` keeps the low 16 bits of the code); otherwise
   * `parseInt(i, 10)`, which is i itself.
   */
  function Base10ToBase36(i: int): (r: Base36Value)
    ensures i > 9 ==> r.Letter? && 0 <= r.unit < 0x10000
    ensures i > 9 && i < 0x10000 - 87 ==> r == Letter('a' as int + (i - 10))
    ensures i <= 9 ==> r == Number(i)
  {
    if i > 9 then Letter(('a' as int + (i - 10)) % 0x10000) else Number(i)
  }

  /**
   * `base36ToBase10(ch)`: looks only at the first UTF-16 code unit; '0'..'9'
   * give 0..9, any code above '9' gives code - 'a' + 10 (upper case and
   * ':'..'`' included, so 'A' gives -22), a character outside the Basic
   * Multilingual Plane by its high surrogate, and anything below '0' (and the
   * empty string) gives 0.
   */
  function Base36ToBase10(ch: string): (dec: int)
    ensures ch != [] && '0' <= ch[0] <= '9' ==> dec == ch[0] as int - '0' as int
    ensures ch != [] && '9' < ch[0] && (ch[0] as int) < 0x10000 ==> dec == ch[0] as int - 'a' as int + 10
    ensures ch != [] && (ch[0] as int) >= 0x10000 ==> dec == JsText.CodeUnit0(ch).value - 'a' as int + 10 && dec > 0
    ensures ch == [] || ch[0] < '0' ==> dec == 0
  {
    var code := JsText.CodeUnit0(ch);
    if code.None? then 0
    else if '0' as int <= code.value <= '9' as int then code.value - '0' as int
    else if code.value > '9' as int then code.value - 'a' as int + 10
    else 0
  }

  /** Base-36 values 10..35 survive the round trip through their letter. */
  lemma LetterRoundTrip(i: int)
    requires 10 <= i <= 35
    ensures Base10ToBase36(i) == Letter('a' as int + i - 10)
    ensures Base36ToBase10([('a' as int + i - 10) as char]) == i
  {
  }

  /** Values 0..9 come back as numbers, and their digit character reads back as the value. */
  lemma DigitRoundTrip(i: int)
    requires 0 <= i <= 9
    ensures Base10ToBase36(i) == Number(i)
    ensures Base36ToBase10([('0' as int + i) as char]) == i
  {
  }

  /** The map widths `logarithmBaseTwo` knows: 2, 4, ..., 1024. */
  predicate IsKnownPowerOfTwo(num: int) {
    exists k :: 1 <= k <= 10 && num == Pow2(k)
  }

  /** `logarithmBaseTwo(num)`: k for num == 2^k with 1 <= k <= 10, and 6 for every other input. */
  function LogarithmBaseTwo(num: int): (r: int)
    ensures IsKnownPowerOfTwo(num) ==> 1 <= r <= 10 && Pow2(r) == num
    ensures !IsKnownPowerOfTwo(num) ==> r == 6
  {
    Pow2Table();
    match num
    case 2 => 1
    case 4 => 2
    case 8 => 3
    case 16 => 4
    case 32 => 5
    case 64 => 6
    case 128 => 7
    case 256 => 8
    case 512 => 9
    case 1024 => 10
    case _ => 6
  }

  lemma Pow2Table()
    ensures Pow2(1) == 2 && Pow2(2) == 4 && Pow2(3) == 8 && Pow2(4) == 16 && Pow2(5) == 32
    ensures Pow2(6) == 64 && Pow2(7) == 128 && Pow2(8) == 256 && Pow2(9) == 512 && Pow2(10) == 1024
  {
  }

  /** In particular 1 is not a known power: `logarithmBaseTwo(1)` is 6, not 0. */
  lemma LogOfOne()
    ensures LogarithmBaseTwo(1) == 6
  {
    Pow2Table();
    forall k | 1 <= k <= 10 ensures Pow2(k) != 1 { }
  }
}

/** What each conversion sends, in terms of the argument: the number that the text reads back as, the string it
    shows, and the arguments for which it sends nothing. */
module FormatMeaning {
  import opened FormatNumber
  import opened Format

  // t is the number n in the given base, without needless digits, at its place in a field of the given width.
  ghost predicate Shows(t: string, n: int, base: nat, width: int, zero: bool, right: bool) {
    exists k: nat :: ShowsIn(t, k, n, base, width, zero, right)
  }

  ghost predicate ShowsIn(t: string, k: nat, n: int, base: nat, width: int, zero: bool, right: bool) {
    && 0 < k <= |t| && |t| == (if width > k then width else k)
    && IsNumber(if right then t[..k] else t[|t| - k..], n, base)
    && forall i :: (if right then k <= i < |t| else 0 <= i < |t| - k) ==> t[i] == if zero then '0' else ' '
  }

  // d reads back as n and has no needless digit.
  ghost predicate IsNumber(d: string, n: int, base: nat) {
    && d != "" && SignedValue(d, base) == n && (n < 0 <==> d[0] == '-')
    && (d[0] == '0' ==> |d| == 1) && (n < 0 ==> 1 < |d| && d[1] != '0')
  }

  // n is the number modulo w that lies in the argument, signed or not.
  ghost predicate Reads(bits: nat, w: nat, signed: bool, n: int)
    requires 0 < w
  {
    && (n - bits) % w == 0
    && if signed then 0 <= 2 * n + w < 2 * w else 0 <= n < w
  }

  // The conversion takes a 64-bit argument.
  predicate IsLong(c: char, longLevel: nat) {
    c == 'x' || c == 'p' || (c != 'o' && longLevel > 0)
  }

  function Base(c: char): nat {
    if c == 'x' || c == 'p' then 16 else if c == 'o' then 8 else 10
  }

  lemma ShowsNumber(n: int, base: nat, width: int, zero: bool, right: bool)
    requires 2 <= base <= 16
    ensures Shows(NumText(n, base, width, zero, right), n, base, width, zero, right)
  {
    hide IsNumber, Signed;
    SignedIs(n, base);
    var t, d := NumText(n, base, width, zero, right), Signed(n, base);
    assert (if right then t[..|d|] else t[|t| - |d|..]) == d;
    assert ShowsIn(t, |d|, n, base, width, zero, right);
  }

  lemma SignedIs(n: int, base: nat)
    requires 2 <= base <= 16
    ensures IsNumber(Signed(n, base), n, base)
  {
    hide SignedValue, Digits;
    SignedMeans(n, base);
    if n >= 0 {
      NoLeadingZero(n, base);
      ZeroIs(base);
    } else {
      NoLeadingZero(-n, base);
    }
  }

  lemma ZeroIs(base: nat)
    requires 2 <= base <= 16
    ensures |Digits(0, base)| == 1
  {
  }

  lemma SignedReads(bits: nat)
    ensures Reads(bits, TWO_32, true, Signed32(bits)) && Reads(bits, TWO_64, true, Signed64(bits))
    ensures Reads(bits, TWO_32, false, bits % TWO_32) && Reads(bits, TWO_64, false, bits % TWO_64)
  {
    hide Reads;
    BitsRead(bits, TWO_31);
    BitsRead(bits, TWO_63);
  }

  lemma BitsRead(bits: nat, h: nat)
    requires 0 < h
    ensures var w, b := 2 * h, bits % (2 * h);
            Reads(bits, w, false, b) && Reads(bits, w, true, if b < h then b else b - w)
  {
    var w, b := 2 * h, bits % (2 * h);
    WholeMultiples(bits, w);
  }

  lemma WholeMultiples(bits: nat, w: nat)
    requires 0 < w
    ensures bits % w < w
    ensures (bits % w - bits) % w == 0 && (bits % w - w - bits) % w == 0
  {
    var q: int := bits / w;
    Multiple(w, -q);
    Multiple(w, -q - 1);
    assert w * -q == -(w * q) && w * (-q - 1) == -(w * q) - w;
  }

  lemma Multiple(w: nat, q: int)
    requires 0 < w
    ensures (w * q) % w == 0
  {
    var r := (w * q) % w;
    assert w * q - r == w * (w * q / w);
    Below(w, q - w * q / w, r);
  }

  lemma Below(w: nat, k: int, r: nat)
    requires w * k == r < w
    ensures r == 0
  {
  }

  // A number conversion sends text if and only if it has an argument of its size, and none of the cases that the
  // formatter asserts away: a precision other than for d and i, and the least 64-bit number.
  lemma NumberConverts(c: char, f: Flags, args: seq<Arg>)
    requires c in "diuoxp"
    ensures Convert(c, f, args).Done? <==>
            && args != [] && (if IsLong(c, f.longLevel) then args[0].Wide? else args[0].Narrow?)
            && (f.precision != -1 ==> c in "di")
            && !(c in "diu" && f.longLevel > 0 && args[0].bits % TWO_64 == TWO_63)
  {
    hide NumText;
  }

  // The text is that of the argument as a number: signed for d and i, unsigned for the others, except that u
  // prints 64 bits as signed.  It has the directive's width and filling; for d and i a precision replaces them
  // by as many places, filled with zeros.
  lemma NumberMeans(c: char, f: Flags, args: seq<Arg>) returns (n: int)
    requires c in "diuoxp" && Convert(c, f, args).Done?
    ensures var r, a := Convert(c, f, args), args[0];
            && r.args == args[1..] && r.longLevel == (if c in "di" then 0 else f.longLevel)
            && (a.Narrow? || a.Wide?)
            && Reads(a.bits, if a.Wide? then TWO_64 else TWO_32, c in "di" || (c == 'u' && a.Wide?), n)
            && if f.precision == -1 then Shows(r.text, n, Base(c), f.prefix, f.zero, f.right)
               else Shows(r.text, n, Base(c), f.precision, true, false)
  {
    hide NumText, Shows, Reads, Signed32, Signed64;
    NumberConverts(c, f, args);
    var a := args[0];
    SignedReads(a.bits);
    if c in "di" {
      n := if f.longLevel > 0 then Signed64(a.bits) else Signed32(a.bits);
      var g := DecimalFlags(f);
      ShowsNumber(n, 10, g.prefix, g.zero, g.right);
    } else {
      n := if c == 'u' && f.longLevel > 0 then Signed64(a.bits) else a.bits % if a.Wide? then TWO_64 else TWO_32;
      ShowsNumber(n, Base(c), f.prefix, f.zero, f.right);
    }
  }

  // So %lu shows its argument if and only if the argument is less than 2^63; at 2^63 it stops, and above it shows a
  // negative number.
  lemma LongUnsigned(f: Flags, bits: nat, rest: seq<Arg>)
    requires f.longLevel > 0 && f.precision == -1 && bits < TWO_64
    ensures var r := Convert('u', f, [Wide(bits)] + rest);
            && (r.Done? <==> bits != TWO_63)
            && (bits < TWO_63 ==> Shows(r.text, bits, 10, f.prefix, f.zero, f.right))
            && (bits > TWO_63 ==> Shows(r.text, bits - TWO_64, 10, f.prefix, f.zero, f.right))
  {
    hide Shows, NumText;
    var args := [Wide(bits)] + rest;
    assert args[0] == Wide(bits);
    NumberConverts('u', f, args);
    if bits != TWO_63 { ShowsNumber(Signed64(bits), 10, f.prefix, f.zero, f.right); }
  }

  // t is s in a field of the given width.
  ghost predicate InField(t: string, s: string, width: int, right: bool) {
    && |t| == (if width > |s| then width else |s|)
    && (if right then t[..|s|] else t[|t| - |s|..]) == s
    && forall i :: (if right then |s| <= i < |t| else 0 <= i < |t| - |s|) ==> t[i] == ' '
  }

  // A string conversion sends the string in its field, or cut to the precision; it takes one of the two, and the
  // precision for text on the left of its field only.
  lemma StringMeans(f: Flags, args: seq<Arg>)
    ensures var r := Convert('s', f, args);
            && (r.Done? <==>
                  && args != [] && (args[0].Null? || args[0].Text?) && !f.zero
                  && (f.precision != -1 ==> f.prefix == 0 && !f.right))
            && (r.Done? ==>
                  var s := if args[0].Null? then "(NULL)" else args[0].s;
                  && r.args == args[1..] && r.longLevel == f.longLevel
                  && if 0 <= f.precision < |s| then r.text == s[..f.precision]
                     else InField(r.text, s, f.prefix, f.right))
  {
    var r := Convert('s', f, args);
    if r.Done? {
      var s := if args[0].Null? then "(NULL)" else args[0].s;
      assert Fill(' ', 0 - |s|) == "";
      if 0 <= f.precision < |s| { assert r.text == "" + s[..f.precision]; }
    }
  }

  // %c sends the low byte of its argument, and %% a percent sign for no argument.
  lemma CharacterMeans(f: Flags, args: seq<Arg>)
    ensures var r := Convert('c', f, args);
            && (r.Done? <==> args != [] && args[0].Narrow?)
            && (r.Done? ==> r.args == args[1..] && r.longLevel == f.longLevel && |r.text| == 1
                            && r.text[0] as int == args[0].bits % 256)
    ensures Convert('%', f, args) == Done("%", args, f.longLevel)
  {
  }
}

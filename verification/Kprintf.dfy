/** The kernel's printf: a parser over the format string that sends text to a context, and the two contexts,
    the serial port and a buffer of fixed size. */
module Kprintf {
  import opened FormatNumber
  import opened Format

  // As much of what was sent as fits, the terminator after it, and nothing else changed. If nothing was sent,
  // there is no terminator.
  ghost predicate Holds(out: seq<char>, sent: string, limit: nat, initial: seq<char>)
    requires limit < |out| == |initial|
  {
    var n := if |sent| < limit then |sent| else limit;
    out[..n] == sent[..n] && out[n] == (if sent == "" then initial[n] else '\0') && out[n + 1..] == initial[n + 1..]
  }

  class Context {
    const out: array?<char>   // null for the serial port
    ghost const limit: nat
    ghost const initial: seq<char>   // the buffer before anything was sent
    var pos: nat              // how far sn_write has moved its pointer
    var size: nat             // what is left of the size
    var port: string          // what the serial port has taken
    ghost var sent: string    // everything passed to write

    ghost predicate Valid()
      reads this, out
    {
      if out == null then port == sent
      else
        && limit < out.Length == |initial| && pos + size == limit && pos == (if |sent| < limit then |sent| else limit)
        && Holds(out[..], sent, limit, initial)
    }

    constructor Serial()
      ensures Valid() && sent == "" && out == null && port == ""
    {
      out, limit, pos, size, port, sent, initial := null, 0, 0, 0, "", "", [];
    }

    // ksnprintf's context for a buffer with room for the terminator after size characters
    constructor Bounded(buffer: array<char>, room: nat)
      requires room < buffer.Length
      ensures Valid() && sent == "" && out == buffer && limit == room && initial == buffer[..]
    {
      out, limit, pos, size, port, sent, initial := buffer, room, 0, room, "", "", buffer[..];
    }

    // ctx->write, which is never asked to write nothing
    method Write(s: string)
      requires Valid() && s != ""
      modifies this, out
      ensures Valid() && sent == old(sent) + s
    {
      if out == null {
        SerialWrite(s);
      } else {
        SnWrite(s);
      }
    }

    // context_serial_write
    method SerialWrite(s: string)
      requires Valid() && out == null
      modifies this
      ensures Valid() && sent == old(sent) + s && port == old(port) + s
    {
      var l, i := |s|, 0;
      while l > 0
        invariant l + i == |s| && l >= 0 && port == old(port) + s[..i] && sent == old(sent)
      {
        port := port + [s[i]];
        l, i := l - 1, i + 1;
      }
      sent := sent + s;
      assert s[..i] == s;
    }

    // sn_write
    method SnWrite(s: string)
      requires Valid() && out != null && s != ""
      modifies this, out
      ensures Valid() && sent == old(sent) + s
    {
      var k := if |s| < size then |s| else size;
      forall i | 0 <= i < k {
        out[pos + i] := s[i];
      }
      ghost var before := out[..];
      pos := pos + k;
      size := size - k;
      out[pos] := '\0';
      sent := sent + s;
      assert out[..pos] == sent[..pos];
    }

    // A loop that sends n copies of one character
    method WriteFill(t: char, width: int, length: nat, c: nat) returns (r: nat)
      requires Valid()
      modifies this, out
      ensures Valid() && sent == old(sent) + Fill(t, width - length)
      ensures r == c + |Fill(t, width - length)|
    {
      var prefix := width;
      r := c;
      ghost var n := 0;
      while prefix - length > 0
        invariant n <= |Fill(t, width - length)| && prefix == width - n
        invariant Valid() && sent == old(sent) + Fill(t, width - length)[..n] && r == c + n
      {
        Write([t]);
        assert Fill(t, width - length)[..n + 1] == Fill(t, width - length)[..n] + [t];
        r := r + 1;
        prefix := prefix - 1;
        n := n + 1;
      }
      assert Fill(t, width - length)[..n] == Fill(t, width - length);
    }

    // The digits of n into str, least significant first
    method StoreDigits(n: nat, base: nat, str: array<char>) returns (i: nat)
      requires 8 <= base <= 16 && n < TWO_64 && str.Length == 32
      modifies str
      ensures i <= 22 && |Digits(n, base)| == i && Backwards(str[..], i) == Digits(n, base)
    {
      hide Digits, Digit, Quotient, Remainder;
      DigitsFit(n, base);
      i := 0;
      if 0 == n {
        str[0] := DIGITS[0];
        i := 1;
        ZeroDigit(base);
        assert Backwards(str[..], 1) == [str[..][0]];
      } else {
        var m: nat := n;
        assert Backwards(str[..], 0) == "";
        while m != 0 && i < 32
          invariant i <= 22 && (m != 0 ==> Digits(n, base) == Digits(m, base) + Backwards(str[..], i))
          invariant m == 0 ==> Digits(n, base) == Backwards(str[..], i) && i > 0
          decreases m
        {
          ghost var before := str[..];
          DigitsStep(m, base);
          LengthOf(Digits(m, base), Backwards(before, i), Digits(n, base), i);
          str[i] := DIGITS[m % base];
          PushDigit(before, str[..], i);
          RemainderIs(m, base);
          m := m / base;
          i := i + 1;
        }
      }
    }

    // Sends str[..i] from its end to its start
    method WriteBackwards(str: array<char>, i: nat, c: nat) returns (r: nat)
      requires Valid() && str != out && i <= str.Length
      modifies this, out
      ensures Valid() && sent == old(sent) + Backwards(old(str[..]), i) && r == c + i
    {
      r := c;
      var j := i - 1;
      ghost var s := str[..];
      while j >= 0
        invariant -1 <= j < i && Valid() && str[..] == s && r == c + i - 1 - j
        invariant sent + Backwards(s, j + 1) == old(sent) + Backwards(s, i)
      {
        Write([str[j]]);
        assert sent + Backwards(s, j) == old(sent) + Backwards(s, i) by {
          assert Backwards(s, j + 1) == [s[j]] + Backwards(s, j);
        }
        r := r + 1;
        j := j - 1;
      }
      assert Backwards(s, 0) == "";
    }

    method PrintUnum(n: nat, base: nat, width: int, zero: bool, right: bool) returns (c: nat)
      requires Valid() && 8 <= base <= 16 && n < TWO_64
      modifies this, out
      ensures Valid() && sent == old(sent) + NumText(n, base, width, zero, right)
      ensures c == |NumText(n, base, width, zero, right)|
    {
      hide Digits;
      var str := new char[32];
      var i := StoreDigits(n, base, str);
      c := WriteNumber(str, i, Signed(n, base), width, zero, right);
    }

    method PrintNum(number: int, base: nat, width: int, zero: bool, right: bool) returns (c: nat)
      requires Valid() && 8 <= base <= 16 && -(TWO_63 as int) < number < TWO_63
      modifies this, out
      ensures Valid() && sent == old(sent) + NumText(number, base, width, zero, right)
      ensures c == |NumText(number, base, width, zero, right)|
    {
      hide Digits;
      var str := new char[32];
      var isSigned, n := false, number;
      if n < 0 {
        isSigned := true;
        n := n * -1;
      }
      var i := StoreDigits(n, base, str);
      if isSigned {
        ghost var before := str[..];
        str[i] := '-';
        PushDigit(before, str[..], i);
        i := i + 1;
      }
      c := WriteNumber(str, i, Signed(number, base), width, zero, right);
    }

    // The last three loops of print_num and print_unum
    method WriteNumber(str: array<char>, i: nat, ghost text: string, width: int, zero: bool, right: bool)
      returns (c: nat)
      requires Valid() && str != out && i <= str.Length && Backwards(str[..], i) == text
      modifies this, out
      ensures var p := Padded(text, width, if zero then '0' else ' ', right);
              Valid() && sent == old(sent) + p && c == |p|
    {
      var t := if zero then '0' else ' ';
      c := 0;
      if !right {
        c := WriteFill(t, width, i, c);
      }
      c := WriteBackwards(str, i, c);
      if right {
        c := WriteFill(t, width, i, c);
      }
    }

    // The second loop of print_string; n characters are sent.
    method WriteCut(s: string, precision: int) returns (n: nat)
      requires Valid()
      modifies this, out
      ensures Valid() && sent == old(sent) + Cut(s, precision) && n == |Cut(s, precision)|
    {
      var bl := precision;
      n := 0;
      while n < |s|
        invariant n <= |s| && Valid() && sent == old(sent) + s[..n]
        invariant precision != -1 ==> bl == precision - n
        invariant precision >= 0 ==> n <= precision
      {
        if precision != -1 {
          if 0 == bl {
            break;
          }
          bl := bl - 1;
        }
        Write([s[n]]);
        assert s[..n + 1] == s[..n] + [s[n]];
        n := n + 1;
      }
      assert s[..n] == Cut(s, precision);
    }

    // print_string; false where one of its assertions fails.
    method PrintString(s: string, rc: nat, width: int, right: bool, precision: int) returns (ok: bool, r: nat)
      requires Valid()
      modifies this, out
      ensures var t := StringText(s, Flags(width, 0, false, right, precision));
              Valid() && (ok <==> t.Sent?) && (ok ==> sent == old(sent) + t.text && r == rc + |t.text|)
    {
      r := rc;
      var c := 0;
      if !right {
        if width != 0 && precision != -1 {
          return false, r;
        }
        c := WriteFill(' ', width, |s|, c);
      }
      var n := WriteCut(s, precision);
      r := r + n;
      if right {
        if precision != -1 {
          return false, r;
        }
        c := WriteFill(' ', width, |s|, c);
      }
      return true, r + c;
    }

    // vkcprintf; false where an assertion fails or an argument is missing or of the wrong size.
    method Vkcprintf(fmt: string, args: seq<Arg>) returns (ok: bool, rc: nat)
      requires Valid()
      modifies this, out
      ensures var r := Formatted(fmt, args);
              Valid() && (ok <==> r.Sent?) && (ok ==> sent == old(sent) + r.text && rc == |r.text|)
    {
      hide Inside, Outside, Convert, Formatted;
      rc := 0;
      var i, ap, cont := 0, args, false;
      var f := Reset(0);
      ghost var start := sent;
      FormattedIs(fmt, args);
      PrependNothing(Outside(fmt, 0, args));
      assert fmt[0..] == fmt && start + "" == start;
      while i < |fmt|
        invariant 0 <= i <= |fmt| && Valid() && start <= sent && rc == |sent| - |start|
        invariant !cont ==> f == Reset(f.longLevel)
        invariant Formatted(fmt, args) == Prepend(sent[|start|..], Rendered(fmt[i..], cont, f, ap))
      {
        var s, c := fmt[i..], fmt[i];
        ghost var done := sent[|start|..];
        RenderedStep(s, cont, f, ap);
        if !cont && '%' != c {
          Write([c]);
          PrependMore(done, [c], Rendered(s[1..], false, f, ap));
          rc := rc + 1;
          i := i + 1;
          continue;
        }
        if !cont {
          cont := true;
          i := i + 1;
          continue;
        }
        if IsConversion(c) {
          ghost var r := Convert(c, f, ap);
          ghost var before := sent;
          var good;
          good, rc, ap, f := PrintConversion(c, f, ap, rc);
          if !good {
            return false, rc;
          }
          PrependMore(done, r.text, Rendered(s[1..], false, f, ap));
          assert sent[|start|..] == done + r.text;
          cont := false;
          i := i + 1;
        } else {
          var good;
          good, i, ap, f := ParseFlag(fmt, i, f, ap);
          if !good {
            return false, rc;
          }
        }
      }
      assert fmt[i..] == "";
      RenderedNothing(cont, f, ap);
      return true, rc;
    }

    // The cases of the switch that end a directive, and the reset of its flags
    method PrintConversion(c: char, f: Flags, args: seq<Arg>, rc: nat)
      returns (ok: bool, total: nat, rest: seq<Arg>, next: Flags)
      requires Valid() && IsConversion(c)
      modifies this, out
      ensures var r := Convert(c, f, args);
              Valid() && (ok <==> r.Done?)
              && (ok ==> sent == old(sent) + r.text && total == rc + |r.text|)
              && (ok ==> rest == r.args && next == Reset(r.longLevel))
    {
      hide NumText, StringText, Signed32, Signed64;
      total, rest, next := rc, args, Reset(f.longLevel);
      if c == '%' {
        Write("%");
        return true, rc + 1, rest, next;
      }
      if args == [] {
        return false, total, rest, next;
      }
      var a := args[0];
      rest := args[1..];
      match c {
        case 'd' | 'i' =>
          ok, total := PrintDecimal(a, f, rc);
          next := Reset(0);
        case 'u' =>
          ok, total := PrintUnsigned(a, f, rc);
        case 's' =>
          if f.zero || a.Narrow? || a.Wide? {
            return false, total, rest, next;
          }
          if a.Null? {
            ok, total := PrintString("(NULL)", rc, f.prefix, f.right, f.precision);
          } else {
            ok, total := PrintString(a.s, rc, f.prefix, f.right, f.precision);
          }
          StringTextIs(if a.Null? then "(NULL)" else a.s, f);
        case 'o' =>
          if f.precision != -1 || !a.Narrow? {
            return false, total, rest, next;
          }
          var n := PrintNum(a.bits % TWO_32, 8, f.prefix, f.zero, f.right);
          ok, total := true, rc + n;
        case 'c' =>
          if !a.Narrow? {
            return false, total, rest, next;
          }
          Write([(a.bits % 256) as char]);
          ok, total := true, rc + 1;
        case _ =>
          if f.precision != -1 || !a.Wide? {
            return false, total, rest, next;
          }
          var n := PrintUnum(a.bits % TWO_64, 16, f.prefix, f.zero, f.right);
          ok, total := true, rc + n;
      }
    }

    method PrintDecimal(a: Arg, f: Flags, rc: nat) returns (ok: bool, total: nat)
      requires Valid()
      modifies this, out
      ensures var r := Convert('d', f, [a]);
              Valid() && (ok <==> r.Done?) && (ok ==> sent == old(sent) + r.text && total == rc + |r.text|)
    {
      hide NumText;
      var g := f;
      if -1 != f.precision {
        g := f.(zero := true, prefix := f.precision, right := false);
      }
      total := rc;
      if f.longLevel > 0 {
        if !a.Wide? || Signed64(a.bits) + TWO_63 == 0 {
          return false, total;
        }
        Signed64InRange(a.bits);
        var n := PrintNum(Signed64(a.bits), 10, g.prefix, g.zero, g.right);
        return true, rc + n;
      }
      if !a.Narrow? {
        return false, total;
      }
      var n := PrintNum(Signed32(a.bits), 10, g.prefix, g.zero, g.right);
      return true, rc + n;
    }

    method PrintUnsigned(a: Arg, f: Flags, rc: nat) returns (ok: bool, total: nat)
      requires Valid()
      modifies this, out
      ensures var r := Convert('u', f, [a]);
              Valid() && (ok <==> r.Done?) && (ok ==> sent == old(sent) + r.text && total == rc + |r.text|)
    {
      hide NumText;
      total := rc;
      if -1 != f.precision {
        return false, total;
      }
      if f.longLevel > 0 {
        if !a.Wide? || Signed64(a.bits) + TWO_63 == 0 {
          return false, total;
        }
        Signed64InRange(a.bits);
        var n := PrintNum(Signed64(a.bits), 10, f.prefix, f.zero, f.right);
        return true, rc + n;
      }
      if !a.Narrow? {
        return false, total;
      }
      var n := PrintNum(a.bits % TWO_32, 10, f.prefix, f.zero, f.right);
      return true, rc + n;
    }
  }

  // The cases of the switch that go on with the directive; i is the next position.
  method ParseFlag(fmt: string, i: nat, f: Flags, args: seq<Arg>)
    returns (ok: bool, next: nat, rest: seq<Arg>, g: Flags)
    requires i < |fmt| && !IsConversion(fmt[i])
    ensures ok ==> i < next <= |fmt| && Inside(fmt[i..], f, args) == Inside(fmt[next..], g, rest)
    ensures !ok ==> Inside(fmt[i..], f, args) == Stop
  {
    hide Outside, Convert, IsConversion, ParsePrecision, Signed32, Prepend;
    var c := fmt[i];
    assert fmt[i..][1..] == fmt[i + 1..];
    next, rest, g := i + 1, args, f;
    if c == '.' {
      var good, precision, at := ParsePrecisionAt(fmt, i + 1);
      if !good {
        return false, next, rest, g;
      }
      next := at + 1;
      if -1 == precision {
        if args == [] || !args[0].Narrow? {
          return false, next, rest, g;
        }
        precision := Signed32(args[0].bits);
        rest := args[1..];
      }
      return true, next, rest, f.(precision := precision);
    } else if c == '0' {
      var prefix := f.prefix * 10;
      return true, next, rest, f.(prefix := prefix, zero := f.zero || 0 == prefix);
    } else if c == '-' {
      if f.prefix != 0 {
        return false, next, rest, g;
      }
      return true, next, rest, f.(right := true);
    } else if '1' <= c <= '9' {
      return true, next, rest, f.(prefix := f.prefix * 10 + (c as int - '0' as int));
    } else if c == 'l' {
      if f.longLevel + 1 > 2 {
        return false, next, rest, g;
      }
      return true, next, rest, f.(longLevel := f.longLevel + 1);
    }
    return false, next, rest, g;
  }

  // parse_precision from the character after the dot on, with the assertions around it; at is the last
  // character it used, which is the dot itself if there is no digit.
  method ParsePrecisionAt(fmt: string, from: nat) returns (ok: bool, rc: int, at: int)
    requires 0 < from <= |fmt|
    ensures var p := ParsePrecision(fmt[from..]);
            && (ok <==> !p.Bad?)
            && (ok ==> from - 1 <= at < |fmt| && p.rest == fmt[at + 1..])
            && (p.Star? ==> rc == -1) && (p.Number? ==> rc == p.n)
  {
    rc, at := 0, from;
    if from == |fmt| {
      return false, rc, at;
    }
    ghost var text := fmt[from..];
    var i := 0;
    while true
      invariant from <= at <= |fmt| && at - from == i && rc >= 0
      invariant text[0] == '*' ==> i == 0
      invariant ParseDigits(text, 0) == ParseDigits(fmt[at..], rc)
      decreases |fmt| - at
    {
      if at == |fmt| {
        return false, rc, at;
      }
      var c := fmt[at];
      assert fmt[at..][0] == c && fmt[at..][1..] == fmt[at + 1..];
      if '*' == c {
        if i != 0 {
          return false, rc, at;
        }
        return true, -1, at;
      } else if !('0' <= c <= '9') {
        at := at - 1;
        return true, rc, at;
      }
      rc := rc * 10;
      rc := rc + (c as int - '0' as int);
      i := i + 1;
      at := at + 1;
    }
  }

  // Characters s[..i], last one first
  function Backwards(s: seq<char>, i: nat): (t: string)
    requires i <= |s|
    ensures |t| == i
  {
    if i == 0 then "" else [s[i - 1]] + Backwards(s, i - 1)
  }

  lemma {:induction false} SameBackwards(s: seq<char>, t: seq<char>, i: nat)
    requires i <= |s| && i <= |t| && s[..i] == t[..i]
    ensures Backwards(s, i) == Backwards(t, i)
    decreases i
  {
    if i > 0 {
      assert s[..i][i - 1] == t[..i][i - 1];
      assert s[..i - 1] == s[..i][..i - 1] && t[..i - 1] == t[..i][..i - 1];
      SameBackwards(s, t, i - 1);
    }
  }

  lemma PushDigit(s: seq<char>, t: seq<char>, i: nat)
    requires |s| == |t| && i < |s| && forall k :: 0 <= k < |s| && k != i ==> s[k] == t[k]
    ensures Backwards(t, i + 1) == [t[i]] + Backwards(s, i)
  {
    SameBackwards(s, t, i);
  }

  lemma DigitsStep(m: nat, base: nat)
    requires 2 <= base <= 16 && m > 0
    ensures Digits(m, base) == (if m < base then "" else Digits(Quotient(m, base), base)) + [Digit(Remainder(m, base))]
  {
    hide Digit;
    if m < base {
      SmallRemainder(m, base);
    }
  }

  lemma SmallRemainder(m: nat, base: nat)
    requires m < base && base >= 2
    ensures Remainder(m, base) == m
  {
  }

  lemma RemainderIs(m: nat, base: nat)
    requires 2 <= base <= 16
    ensures m % base == Remainder(m, base) && m / base == Quotient(m, base)
    ensures DIGITS[m % base] == Digit(Remainder(m, base))
    ensures m / base == 0 <==> m < base
  {
    DividedIsLess(m, base);
  }

  lemma ZeroDigit(base: nat)
    requires 2 <= base <= 16
    ensures Digits(0, base) == [DIGITS[0]]
  {
  }

  lemma LengthOf(front: string, back: string, all: string, i: nat)
    requires all == front + back && front != "" && |back| == i && |all| <= 22
    ensures i < 22
  {
  }

  lemma Signed64InRange(bits: nat)
    ensures -(TWO_63 as int) <= Signed64(bits) < TWO_63
  {
  }

  lemma StringTextIs(s: string, f: Flags)
    ensures StringText(s, f) == StringText(s, Flags(f.prefix, 0, false, f.right, f.precision))
  {
  }

  // ------------------------------------------------------------------------------------------
  // The loop of vkcprintf and the text
  // ------------------------------------------------------------------------------------------

  function Rendered(s: string, cont: bool, f: Flags, args: seq<Arg>): Result {
    if cont then Inside(s, f, args) else Outside(s, f.longLevel, args)
  }

  lemma FormattedIs(fmt: string, args: seq<Arg>)
    ensures Formatted(fmt, args) == Rendered(fmt, false, Reset(0), args)
  {
  }

  lemma RenderedNothing(cont: bool, f: Flags, args: seq<Arg>)
    ensures Rendered("", cont, f, args) == Sent("")
  {
  }

  lemma RenderedStep(s: string, cont: bool, f: Flags, args: seq<Arg>)
    requires s != ""
    ensures !cont && s[0] != '%' ==> Rendered(s, cont, f, args) == Prepend([s[0]], Rendered(s[1..], false, f, args))
    ensures !cont && s[0] == '%' ==> Rendered(s, cont, f, args) == Rendered(s[1..], true, Reset(f.longLevel), args)
    ensures cont && IsConversion(s[0]) ==> Rendered(s, cont, f, args) == Onward(Convert(s[0], f, args), s[1..])
  {
    hide Convert;
  }

  lemma PrependNothing(r: Result)
    ensures Prepend("", r) == r
  {
    assert r.Sent? ==> "" + r.text == r.text;
  }

  lemma PrependMore(a: string, b: string, r: Result)
    ensures Prepend(a, Prepend(b, r)) == Prepend(a + b, r)
  {
    assert r.Sent? ==> a + (b + r.text) == (a + b) + r.text;
  }

  // ksnprintf: the text's first characters, as many as fit, and a terminator unless nothing was sent at all.
  method Ksnprintf(out: array<char>, size: nat, fmt: string, args: seq<Arg>) returns (ok: bool, rc: nat)
    requires size < out.Length
    modifies out
    ensures ok <==> Formatted(fmt, args).Sent?
    ensures ok ==> rc == |Formatted(fmt, args).text| && Holds(out[..], Formatted(fmt, args).text, size, old(out[..]))
  {
    var context := new Context.Bounded(out, size);
    ok, rc := context.Vkcprintf(fmt, args);
    assert ok ==> "" + Formatted(fmt, args).text == Formatted(fmt, args).text;
  }

  // kprintf
  method Kprintf(fmt: string, args: seq<Arg>) returns (ok: bool, rc: nat, port: string)
    ensures ok <==> Formatted(fmt, args).Sent?
    ensures ok ==> port == Formatted(fmt, args).text && rc == |port|
  {
    var context := new Context.Serial();
    ok, rc := context.Vkcprintf(fmt, args);
    port := context.port;
    assert ok ==> "" + Formatted(fmt, args).text == Formatted(fmt, args).text;
  }
}

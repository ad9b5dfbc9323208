/** A format string written down from a list of directives sends what the directives say. The one thing that
    a directive leaves behind for later ones is its long level. */
module FormatSyntax {
  import opened FormatNumber
  import opened Format

  datatype PrecisionSpec = Default | Fixed(n: nat) | FromArgument

  datatype Item =
    | Literal(c: char)
    | Directive(right: bool, zero: bool, width: nat, precision: PrecisionSpec, longs: nat, conversion: char)

  ghost predicate Sound(i: Item) {
    match i
    case Literal(c) => c != '%'
    case Directive(_, _, _, _, _, c) => IsConversion(c)
  }

  ghost predicate AllSound(items: seq<Item>)
    decreases |items|
  {
    items == [] || (Sound(items[0]) && AllSound(items[1..]))
  }

  // ------------------------------------------------------------------------------------------
  // Written down
  // ------------------------------------------------------------------------------------------

  function Longs(n: nat): (t: string)
    ensures |t| == n
  {
    if n == 0 then "" else "l" + Longs(n - 1)
  }

  function WidthText(w: nat): string {
    if w == 0 then "" else Digits(w, 10)
  }

  function PrecisionText(p: PrecisionSpec): string {
    match p
    case Default => ""
    case Fixed(n) => "." + Digits(n, 10)
    case FromArgument => ".*"
  }

  function Written(i: Item): string {
    match i
    case Literal(c) => [c]
    case Directive(right, zero, width, precision, longs, c) =>
      "%" + (if right then "-" else "") + (if zero then "0" else "") + WidthText(width) + PrecisionText(precision)
      + Longs(longs) + [c]
  }

  function WrittenAll(items: seq<Item>): string {
    if items == [] then "" else Written(items[0]) + WrittenAll(items[1..])
  }

  // ------------------------------------------------------------------------------------------
  // Carried out
  // ------------------------------------------------------------------------------------------

  // One directive, with the long level it is carried out at.
  function CarriedOut(i: Item, level: nat, args: seq<Arg>): Converted
    requires i.Directive? && IsConversion(i.conversion)
  {
    match i.precision
    case Default => Convert(i.conversion, Flags(i.width, level, i.zero, i.right, -1), args)
    case Fixed(n) => Convert(i.conversion, Flags(i.width, level, i.zero, i.right, n), args)
    case FromArgument =>
      if args == [] || !args[0].Narrow? then Failed
      else Convert(i.conversion, Flags(i.width, level, i.zero, i.right, Signed32(args[0].bits)), args[1..])
  }

  // As the source does it: the level left by one directive adds to the next one's.
  ghost function Actual(items: seq<Item>, level: nat, args: seq<Arg>): Result
    requires AllSound(items)
    decreases |items|
  {
    if items == [] then Sent("")
    else
      match items[0]
      case Literal(c) => Prepend([c], Actual(items[1..], level, args))
      case Directive(_, _, _, _, longs, _) =>
        if level + longs > 2 then Stop
        else
          match CarriedOut(items[0], level + longs, args) {
            case Failed => Stop
            case Done(t, rest, left) => Prepend(t, Actual(items[1..], left, rest))
          }
  }

  // As the directives say it: each at its own level.
  ghost function Intended(items: seq<Item>, args: seq<Arg>): Result
    requires AllSound(items)
    decreases |items|
  {
    if items == [] then Sent("")
    else
      match items[0]
      case Literal(c) => Prepend([c], Intended(items[1..], args))
      case Directive(_, _, _, _, longs, _) =>
        if longs > 2 then Stop
        else
          match CarriedOut(items[0], longs, args) {
            case Failed => Stop
            case Done(t, rest, _) => Prepend(t, Intended(items[1..], rest))
          }
  }

  function WithPrecision(p: Precision, f: Flags, args: seq<Arg>): Result {
    match p
    case Bad => Stop
    case Number(n, left) => Inside(left, f.(precision := n), args)
    case Star(left) =>
      if args == [] || !args[0].Narrow? then Stop
      else Inside(left, f.(precision := Signed32(args[0].bits)), args[1..])
  }

  // ------------------------------------------------------------------------------------------
  // Parsing gives back the directive
  // ------------------------------------------------------------------------------------------

  lemma InsideDigit(n: nat, rest: string, f: Flags, args: seq<Arg>)
    requires n < 10
    ensures Inside([Digit(n)] + rest, f, args) ==
            Inside(rest, f.(prefix := f.prefix * 10 + n, zero := f.zero || (n == 0 && f.prefix == 0)), args)
  {
    var s := [Digit(n)] + rest;
    assert s[0] == Digit(n) && s[1..] == rest;
    DigitMeans(n);
  }

  lemma {:induction false} InsideWidth(w: nat, rest: string, f: Flags, args: seq<Arg>)
    requires w > 0 && f.prefix == 0
    ensures Inside(Digits(w, 10) + rest, f, args) == Inside(rest, f.(prefix := w), args)
    decreases w
  {
    hide Inside, Quotient, Remainder, Digit;
    if w < 10 {
      InsideDigit(w, rest, f, args);
    } else {
      var q, r := Quotient(w, 10), Remainder(w, 10);
      Division(w, 10);
      var more := [Digit(r)] + rest;
      assert Digits(w, 10) + rest == Digits(q, 10) + more;
      InsideWidth(q, more, f, args);
      InsideDigit(r, rest, f.(prefix := q), args);
    }
  }

  // Text that ends a number: neither a digit nor a star.
  ghost predicate EndsNumber(s: string) {
    s != "" && s[0] != '*' && !IsDigit(s[0])
  }

  lemma DigitStep(n: nat, rest: string, m: nat)
    requires n < 10
    ensures ParseDigits([Digit(n)] + rest, m) == ParseDigits(rest, m * 10 + n)
  {
    var s := [Digit(n)] + rest;
    assert s[0] == Digit(n) && s[1..] == rest;
    DigitMeans(n);
  }

  lemma {:induction false} ParsesNumber(n: nat, rest: string)
    ensures ParseDigits(Digits(n, 10) + rest, 0) == ParseDigits(rest, n)
    decreases n
  {
    hide ParseDigits, Quotient, Remainder, Digit;
    if n < 10 {
      DigitStep(n, rest, 0);
    } else {
      var q, r := Quotient(n, 10), Remainder(n, 10);
      Division(n, 10);
      var more := [Digit(r)] + rest;
      assert Digits(n, 10) + rest == Digits(q, 10) + more;
      ParsesNumber(q, more);
      DigitStep(r, rest, q);
    }
  }

  lemma {:induction false} InsideLongs(n: nat, rest: string, f: Flags, args: seq<Arg>)
    ensures Inside(Longs(n) + rest, f, args) ==
            if n > 0 && f.longLevel + n > 2 then Stop else Inside(rest, f.(longLevel := f.longLevel + n), args)
    decreases n
  {
    if n == 0 {
      assert Longs(0) + rest == rest;
    } else {
      var s := Longs(n) + rest;
      assert s[0] == 'l' && s[1..] == Longs(n - 1) + rest;
      if f.longLevel < 2 {
        InsideLongs(n - 1, rest, f.(longLevel := f.longLevel + 1), args);
      }
    }
  }

  lemma InsideConversion(c: char, rest: string, f: Flags, args: seq<Arg>)
    requires IsConversion(c)
    ensures Inside([c] + rest, f, args) ==
            Onward(Convert(c, f, args), rest)
  {
    hide Convert, Outside;
    var s := [c] + rest;
    assert s[0] == c && s[1..] == rest;
  }

  lemma InsideMinus(rest: string, f: Flags, args: seq<Arg>)
    requires f.prefix == 0
    ensures Inside("-" + rest, f, args) == Inside(rest, f.(right := true), args)
  {
    var s := "-" + rest;
    assert s[0] == '-' && s[1..] == rest;
  }

  lemma InsideDot(rest: string, f: Flags, args: seq<Arg>)
    ensures Inside("." + rest, f, args) ==
            WithPrecision(ParsePrecision(rest), f, args)
  {
    hide ParsePrecision;
    var s := "." + rest;
    assert s[0] == '.' && s[1..] == rest;
  }

  lemma DotNumber(n: nat, rest: string)
    requires EndsNumber(rest)
    ensures ParsePrecision(Digits(n, 10) + rest) == Number(n, rest)
  {
    hide Digits;
    ParsesNumber(n, rest);
    FirstIsDigit(n);
    var s := Digits(n, 10) + rest;
    assert s[0] == Digits(n, 10)[0];
  }

  lemma {:induction false} FirstIsDigit(n: nat)
    ensures Digits(n, 10)[0] != '*'
    decreases n
  {
    hide Quotient, Remainder;
    if n >= 10 {
      FirstIsDigit(Quotient(n, 10));
    }
  }

  // The part of a directive from its precision on.
  function Tail(i: Item): string
    requires i.Directive?
  {
    Longs(i.longs) + [i.conversion]
  }

  lemma TailEndsNumber(i: Item, rest: string)
    requires i.Directive? && IsConversion(i.conversion)
    ensures EndsNumber(Tail(i) + rest)
  {
    assert (Tail(i) + rest)[0] == if i.longs == 0 then i.conversion else 'l';
  }

  lemma InsideTail(i: Item, rest: string, f: Flags, args: seq<Arg>)
    requires i.Directive? && IsConversion(i.conversion) && f.longLevel <= 2
    ensures Inside(Tail(i) + rest, f, args) ==
            if f.longLevel + i.longs > 2 then Stop
            else Onward(Convert(i.conversion, f.(longLevel := f.longLevel + i.longs), args), rest)
  {
    hide Inside, Outside, Convert, IsConversion;
    assert Tail(i) + rest == Longs(i.longs) + ([i.conversion] + rest);
    InsideLongs(i.longs, [i.conversion] + rest, f, args);
    InsideConversion(i.conversion, rest, f.(longLevel := f.longLevel + i.longs), args);
  }

  lemma InsidePrecision(i: Item, rest: string, f: Flags, args: seq<Arg>)
    requires i.Directive? && IsConversion(i.conversion) && f.precision == -1
    ensures Inside(PrecisionText(i.precision) + (Tail(i) + rest), f, args) ==
            if i.precision.Default? then Inside(Tail(i) + rest, f, args)
            else
              WithPrecision(if i.precision.Fixed? then Number(i.precision.n, Tail(i) + rest) else Star(Tail(i) + rest),
                            f, args)
  {
    hide Inside, Tail, Digits, IsConversion, EndsNumber, Signed32;
    var t := Tail(i) + rest;
    match i.precision {
      case Default =>
        assert "" + t == t;
      case Fixed(n) =>
        assert ("." + Digits(n, 10)) + t == "." + (Digits(n, 10) + t);
        InsideDot(Digits(n, 10) + t, f, args);
        TailEndsNumber(i, rest);
        DotNumber(n, t);
      case FromArgument =>
        var s := "*" + t;
        assert ".*" + t == "." + s;
        InsideDot(s, f, args);
        assert s[0] == '*' && s[1..] == t;
    }
  }

  // The start of a directive: its flags and its width.
  lemma InsideStart(i: Item, rest: string, level: nat, args: seq<Arg>)
    requires i.Directive?
    ensures Inside((if i.right then "-" else "") + ((if i.zero then "0" else "") + (WidthText(i.width) + rest)),
                   Reset(level), args)
         == Inside(rest, Flags(i.width, level, i.zero, i.right, -1), args)
  {
    hide Inside, Digits;
    var f0 := Reset(level);
    var f1 := f0.(right := i.right);
    var f2 := f1.(zero := i.zero);
    var w := WidthText(i.width) + rest;
    var z := (if i.zero then "0" else "") + w;
    if i.right {
      InsideMinus(z, f0, args);
    } else {
      assert "" + z == z;
    }
    if i.zero {
      assert [Digit(0)] == "0";
      InsideDigit(0, w, f1, args);
    } else {
      assert "" + w == w;
    }
    if i.width > 0 {
      InsideWidth(i.width, rest, f2, args);
    } else {
      assert "" + rest == rest;
    }
  }

  lemma InsideDirective(i: Item, rest: string, level: nat, args: seq<Arg>)
    requires Sound(i) && i.Directive? && level <= 2
    ensures Outside(Written(i) + rest, level, args) ==
            if level + i.longs > 2 then Stop
            else Onward(CarriedOut(i, level + i.longs, args), rest)
  {
    hide Inside, Convert, WidthText, PrecisionText, Tail, Longs, IsConversion, Prepend, Signed32;
    var p := PrecisionText(i.precision) + (Tail(i) + rest);
    var s := (if i.right then "-" else "") + ((if i.zero then "0" else "") + (WidthText(i.width) + p));
    StartsDirective(i, rest, s);
    InsideStart(i, p, level, args);
    var f := Flags(i.width, level, i.zero, i.right, -1);
    InsidePrecision(i, rest, f, args);
    match i.precision {
      case Default => InsideTail(i, rest, f, args);
      case Fixed(n) => InsideTail(i, rest, f.(precision := n), args);
      case FromArgument =>
        if args != [] && args[0].Narrow? {
          InsideTail(i, rest, f.(precision := Signed32(args[0].bits)), args[1..]);
        }
    }
  }

  lemma StartsDirective(i: Item, rest: string, s: string)
    requires i.Directive?
    requires s == (if i.right then "-" else "") +
                  ((if i.zero then "0" else "") +
                   (WidthText(i.width) + (PrecisionText(i.precision) + (Tail(i) + rest))))
    ensures var all := Written(i) + rest; all != "" && all[0] == '%' && all[1..] == s
  {
    hide WidthText, PrecisionText, Longs;
    assert Written(i) + rest == "%" + s;
  }

  // Reading the written directives carries them out, one after another.
  lemma {:induction false} ParsesWritten(items: seq<Item>, level: nat, args: seq<Arg>)
    requires AllSound(items) && level <= 2
    ensures Outside(WrittenAll(items), level, args) == Actual(items, level, args)
    decreases |items|
  {
    hide Inside, Convert, Written, CarriedOut;
    if items != [] {
      var rest := WrittenAll(items[1..]);
      match items[0] {
        case Literal(c) =>
          LiteralStep(c, rest, level, args);
          ParsesWritten(items[1..], level, args);
        case Directive(_, _, _, _, longs, _) =>
          InsideDirective(items[0], rest, level, args);
          if level + longs <= 2 {
            var r := CarriedOut(items[0], level + longs, args);
            if r.Done? {
              LevelLeft(items[0], level + longs, args);
              ParsesWritten(items[1..], r.longLevel, r.args);
            }
          }
      }
    }
  }

  lemma LiteralStep(c: char, rest: string, level: nat, args: seq<Arg>)
    requires c != '%'
    ensures Outside(Written(Literal(c)) + rest, level, args) == Prepend([c], Outside(rest, level, args))
  {
    hide Inside;
    var s := [c] + rest;
    assert s[0] == c && s[1..] == rest;
  }

  // Only d and i put the long level back.
  lemma LevelLeft(i: Item, level: nat, args: seq<Arg>)
    requires i.Directive? && IsConversion(i.conversion)
    ensures var r := CarriedOut(i, level, args);
            r.Done? ==> r.longLevel == if i.conversion == 'd' || i.conversion == 'i' then 0 else level
  {
    hide NumText, StringText, NumberText, Cut;
  }

  // ------------------------------------------------------------------------------------------
  // What the long level left behind does
  // ------------------------------------------------------------------------------------------

  // Directive i reads its argument as its own number of l's asks, although level is added to them.
  predicate Harmless(i: Item, level: nat)
    requires i.Directive?
  {
    && level + i.longs <= 2
    && (i.conversion in "diu" ==> (level + i.longs > 0) == (i.longs > 0))
  }

  // No directive meets a harmful level from those before it.
  predicate Clean(items: seq<Item>, level: nat)
    decreases |items|
  {
    items == [] ||
    match items[0]
    case Literal(_) => Clean(items[1..], level)
    case Directive(_, _, _, _, longs, c) =>
      Harmless(items[0], level) && Clean(items[1..], if c == 'd' || c == 'i' then 0 else level + longs)
  }

  lemma ConvertIgnoresLevel(c: char, f: Flags, level: nat, args: seq<Arg>)
    requires IsConversion(c) && (c in "diu" ==> (level > 0) == (f.longLevel > 0))
    ensures var r, s := Convert(c, f, args), Convert(c, f.(longLevel := level), args);
            r.Done? == s.Done? && (r.Done? ==> r.text == s.text && r.args == s.args)
  {
    hide NumText, Cut, Fill, Padded, Signed32, Signed64;
  }

  lemma ConvertNeedsLevel(c: char, f: Flags, level: nat, args: seq<Arg>)
    requires IsConversion(c) && c in "diu" && (level > 0) != (f.longLevel > 0)
    requires Convert(c, f, args).Done?
    ensures Convert(c, f.(longLevel := level), args) == Failed
  {
    hide NumText;
  }

  lemma HarmlessIsSame(i: Item, level: nat, args: seq<Arg>)
    requires i.Directive? && IsConversion(i.conversion) && Harmless(i, level)
    ensures var r, s := CarriedOut(i, i.longs, args), CarriedOut(i, level + i.longs, args);
            r.Done? == s.Done? && (r.Done? ==> r.text == s.text && r.args == s.args)
  {
    hide Convert, IsConversion, Signed32;
    match i.precision {
      case Default =>
        ConvertIgnoresLevel(i.conversion, Flags(i.width, i.longs, i.zero, i.right, -1), level + i.longs, args);
      case Fixed(n) =>
        ConvertIgnoresLevel(i.conversion, Flags(i.width, i.longs, i.zero, i.right, n), level + i.longs, args);
      case FromArgument =>
        if args != [] && args[0].Narrow? {
          ConvertIgnoresLevel(i.conversion, Flags(i.width, i.longs, i.zero, i.right, Signed32(args[0].bits)),
                              level + i.longs, args[1..]);
        }
    }
  }

  lemma HarmfulStops(i: Item, level: nat, args: seq<Arg>)
    requires i.Directive? && IsConversion(i.conversion) && !Harmless(i, level) && level + i.longs <= 2
    requires CarriedOut(i, i.longs, args).Done?
    ensures CarriedOut(i, level + i.longs, args) == Failed
  {
    hide Convert, IsConversion, Signed32;
    match i.precision {
      case Default =>
        ConvertNeedsLevel(i.conversion, Flags(i.width, i.longs, i.zero, i.right, -1), level + i.longs, args);
      case Fixed(n) =>
        ConvertNeedsLevel(i.conversion, Flags(i.width, i.longs, i.zero, i.right, n), level + i.longs, args);
      case FromArgument =>
        if args != [] && args[0].Narrow? {
          ConvertNeedsLevel(i.conversion, Flags(i.width, i.longs, i.zero, i.right, Signed32(args[0].bits)),
                            level + i.longs, args[1..]);
        }
    }
  }

  lemma {:induction false} CleanIsIntended(items: seq<Item>, level: nat, args: seq<Arg>)
    requires AllSound(items) && level <= 2 && Intended(items, args).Sent?
    ensures Actual(items, level, args) == if Clean(items, level) then Intended(items, args) else Stop
    decreases |items|
  {
    hide CarriedOut, Harmless, IsConversion;
    if items != [] {
      match items[0] {
        case Literal(c) => CleanIsIntended(items[1..], level, args);
        case Directive(_, _, _, _, longs, c) =>
          var r := CarriedOut(items[0], longs, args);
          if Harmless(items[0], level) {
            HarmlessIsSame(items[0], level, args);
            LevelLeft(items[0], level + longs, args);
            HarmlessBound(items[0], level);
            CleanIsIntended(items[1..], if c == 'd' || c == 'i' then 0 else level + longs, r.args);
          } else if level + longs <= 2 {
            HarmfulStops(items[0], level, args);
          }
      }
    }
  }

  lemma HarmlessBound(i: Item, level: nat)
    requires i.Directive? && Harmless(i, level)
    ensures level + i.longs <= 2
  {
  }

  // For arguments that fit the directives, the text sent is the intended one exactly when no directive meets
  // a harmful long level; otherwise the formatter stops.
  lemma {:induction false} FormatsAsIntended(items: seq<Item>, args: seq<Arg>)
    requires AllSound(items) && Intended(items, args).Sent?
    ensures Formatted(WrittenAll(items), args) == Intended(items, args) <==> Clean(items, 0)
    ensures !Clean(items, 0) ==> Formatted(WrittenAll(items), args) == Stop
  {
    hide Outside, Actual, Clean, WrittenAll, Intended;
    ParsesWritten(items, 0, args);
    CleanIsIntended(items, 0, args);
  }

  // Converting one number with %u or %lu and nothing else
  lemma UnsignedIs(longs: nat, arg: Arg, rest: seq<Arg>)
    requires longs <= 1 && if longs == 1 then arg.Wide? && arg.bits < TWO_63 else arg.Narrow? && arg.bits < TWO_32
    ensures CarriedOut(Directive(false, false, 0, Default, longs, 'u'), longs, [arg] + rest) ==
            Done(Digits(arg.bits, 10), rest, longs)
  {
    hide Digits, NumText;
    var args := [arg] + rest;
    assert args[0] == arg && args[1..] == rest;
    PlainNumber(arg.bits);
  }

  lemma PlainNumber(n: nat)
    ensures NumText(n, 10, 0, false, false) == Digits(n, 10)
  {
    hide Digits;
    assert Fill(' ', 0 - |Digits(n, 10)|) == "";
    assert "" + Digits(n, 10) == Digits(n, 10);
  }

  lemma IntendedStep(i: Item, items: seq<Item>, args: seq<Arg>)
    requires AllSound(items) && Sound(i) && i.Directive? && i.longs <= 2 && CarriedOut(i, i.longs, args).Done?
    ensures AllSound([i] + items)
    ensures var r := CarriedOut(i, i.longs, args);
            Intended([i] + items, args) == Prepend(r.text, Intended(items, r.args))
  {
    hide CarriedOut, IsConversion;
    var all := [i] + items;
    assert all[0] == i && all[1..] == items;
  }

  // After %lu, a plain %u is not read as it is written.
  lemma LongLevelStays(a: nat, b: nat)
    requires a < TWO_63 && b < TWO_32
    ensures var u := Directive(false, false, 0, Default, 1, 'u');
            var v := Directive(false, false, 0, Default, 0, 'u');
            && AllSound([u] + [v])
            && Intended([u] + [v], [Wide(a)] + [Narrow(b)]) == Sent(Digits(a, 10) + Digits(b, 10))
            && Formatted(WrittenAll([u] + [v]), [Wide(a)] + [Narrow(b)]) == Stop
  {
    hide Digits, Written, Formatted, WrittenAll, CarriedOut, Actual;
    var u := Directive(false, false, 0, Default, 1, 'u');
    var v := Directive(false, false, 0, Default, 0, 'u');
    UnsignedIs(1, Wide(a), [Narrow(b)]);
    UnsignedIs(0, Narrow(b), []);
    assert [v] + [] == [v] && [Narrow(b)] + [] == [Narrow(b)];
    IntendedStep(v, [], [Narrow(b)]);
    IntendedStep(u, [v], [Wide(a)] + [Narrow(b)]);
    assert Digits(b, 10) + "" == Digits(b, 10);
    NotClean(u, v);
    FormatsAsIntended([u] + [v], [Wide(a)] + [Narrow(b)]);
  }

  lemma NotClean(u: Item, v: Item)
    requires u == Directive(false, false, 0, Default, 1, 'u') && v == Directive(false, false, 0, Default, 0, 'u')
    ensures !Clean([u] + [v], 0)
  {
    var all := [u] + [v];
    assert all[0] == u && all[1..] == [v] && [v][0] == v;
  }
}

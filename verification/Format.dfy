/** What vkcprintf sends for a format string and its arguments: the text, or a stop at an assertion. */
module Format {
  import opened FormatNumber

  // An argument as it lies in a register or on the stack: 32 or 64 bits, or a string pointer.
  datatype Arg = Narrow(bits: nat) | Wide(bits: nat) | Null | Text(s: string)

  // A failed assertion, an unknown conversion, or an argument that is missing or of another size.
  datatype Result = Sent(text: string) | Stop

  datatype Flags = Flags(prefix: int, longLevel: nat, zero: bool, right: bool, precision: int)

  const TWO_31: nat := 0x8000_0000
  const TWO_32: nat := 0x1_0000_0000
  const TWO_63: nat := 0x8000_0000_0000_0000
  const TWO_64: nat := 0x1_0000_0000_0000_0000

  function Signed32(bits: nat): int {
    var b := bits % TWO_32;
    if b < TWO_31 then b else b - TWO_32
  }

  function Signed64(bits: nat): int {
    var b := bits % TWO_64;
    if b < TWO_63 then b else b - TWO_64
  }

  function Reset(longLevel: nat): Flags {
    Flags(0, longLevel, false, false, -1)
  }

  function IsDigit(c: char): bool {
    '0' <= c <= '9'
  }

  function Prepend(t: string, r: Result): Result {
    match r
    case Sent(u) => Sent(t + u)
    case Stop => Stop
  }

  // ------------------------------------------------------------------------------------------
  // Conversions
  // ------------------------------------------------------------------------------------------

  // The text of one conversion, the arguments left, and the long level left.
  datatype Converted = Done(text: string, args: seq<Arg>, longLevel: nat) | Failed

  function Cut(s: string, precision: int): string {
    if 0 <= precision < |s| then s[..precision] else s
  }

  // print_string
  function StringText(s: string, f: Flags): Result {
    if f.right then
      if f.precision != -1 then Stop else Sent(Padded(s, f.prefix, ' ', true))
    else if f.prefix != 0 && f.precision != -1 then Stop
    else Sent(Fill(' ', f.prefix - |s|) + Cut(s, f.precision))
  }

  // print_num negates a negative number, which 64 bits cannot do to the least one.
  function NumberText(n: int, base: nat, f: Flags): Result
    requires 2 <= base <= 16
  {
    if n + TWO_63 == 0 then Stop else Sent(NumText(n, base, f.prefix, f.zero, f.right))
  }

  predicate IsConversion(c: char) {
    c in "diuspxoc%"
  }

  function Rest(r: Result, args: seq<Arg>, longLevel: nat): Converted {
    match r
    case Sent(t) => Done(t, args, longLevel)
    case Stop => Failed
  }

  function DecimalFlags(f: Flags): Flags {
    if f.precision != -1 then f.(zero := true, prefix := f.precision, right := false) else f
  }

  function Convert(c: char, f: Flags, args: seq<Arg>): Converted
    requires IsConversion(c)
  {
    if c == '%' then Done("%", args, f.longLevel)
    else if args == [] then Failed
    else
      var a, rest := args[0], args[1..];
      match c
      case 'c' => if a.Narrow? then Done([(a.bits % 256) as char], rest, f.longLevel) else Failed
      case 's' =>
        if f.zero || a.Narrow? || a.Wide? then Failed
        else Rest(StringText(if a.Null? then "(NULL)" else a.s, f), rest, f.longLevel)
      case 'o' =>
        if f.precision != -1 || !a.Narrow? then Failed
        else Rest(NumberText(a.bits % TWO_32, 8, f), rest, f.longLevel)
      case 'u' =>
        if f.precision != -1 || (if f.longLevel > 0 then !a.Wide? else !a.Narrow?) then Failed
        else Rest(NumberText(if f.longLevel > 0 then Signed64(a.bits) else a.bits % TWO_32, 10, f), rest, f.longLevel)
      case _ =>
        if c == 'd' || c == 'i' then
          if (if f.longLevel > 0 then !a.Wide? else !a.Narrow?) then Failed
          else
            Rest(NumberText(if f.longLevel > 0 then Signed64(a.bits) else Signed32(a.bits), 10, DecimalFlags(f)),
                 rest, 0)
        else
          if f.precision != -1 || !a.Wide? then Failed
          else Done(NumText(a.bits % TWO_64, 16, f.prefix, f.zero, f.right), rest, f.longLevel)
  }

  // ------------------------------------------------------------------------------------------
  // The format string
  // ------------------------------------------------------------------------------------------

  // parse_precision on the text after the dot: its value, or an argument's, and the text it leaves.
  datatype Precision = Number(n: nat, rest: string) | Star(rest: string) | Bad

  function ParseDigits(s: string, n: nat): (p: Precision)
    ensures p.Number? ==> |p.rest| <= |s|
    ensures !p.Star?
    decreases |s|
  {
    if s == "" || s[0] == '*' then Bad
    else if IsDigit(s[0]) then ParseDigits(s[1..], n * 10 + DigitValue(s[0]))
    else Number(n, s)
  }

  function ParsePrecision(s: string): (p: Precision)
    ensures !p.Bad? ==> |p.rest| <= |s|
  {
    if s != "" && s[0] == '*' then Star(s[1..]) else ParseDigits(s, 0)
  }

  // The text sent from s on, with cont set: inside a directive.
  function Inside(s: string, f: Flags, args: seq<Arg>): Result
    decreases |s|
  {
    if s == "" then Sent("")
    else
      var c := s[0];
      if c == '.' then
        match ParsePrecision(s[1..]) {
          case Bad => Stop
          case Number(n, rest) => Inside(rest, f.(precision := n), args)
          case Star(rest) =>
            if args == [] || !args[0].Narrow? then Stop
            else Inside(rest, f.(precision := Signed32(args[0].bits)), args[1..])
        }
      else if c == '0' then Inside(s[1..], f.(prefix := f.prefix * 10, zero := f.zero || f.prefix == 0), args)
      else if c == '-' then if f.prefix != 0 then Stop else Inside(s[1..], f.(right := true), args)
      else if IsDigit(c) then Inside(s[1..], f.(prefix := f.prefix * 10 + DigitValue(c)), args)
      else if c == 'l' then if f.longLevel >= 2 then Stop else Inside(s[1..], f.(longLevel := f.longLevel + 1), args)
      else if IsConversion(c) then
        match Convert(c, f, args) {
          case Failed => Stop
          case Done(t, rest, longLevel) => Prepend(t, Outside(s[1..], longLevel, rest))
        }
      else Stop
  }

  // The text sent from s on, outside a directive.
  function Outside(s: string, longLevel: nat, args: seq<Arg>): Result
    decreases |s|
  {
    if s == "" then Sent("")
    else if s[0] == '%' then Inside(s[1..], Reset(longLevel), args)
    else Prepend([s[0]], Outside(s[1..], longLevel, args))
  }

  // The result of one conversion and of the text after it
  function Onward(c: Converted, rest: string): Result {
    match c
    case Failed => Stop
    case Done(t, left, longLevel) => Prepend(t, Outside(rest, longLevel, left))
  }

  function Formatted(format: string, args: seq<Arg>): Result {
    Outside(format, 0, args)
  }
}

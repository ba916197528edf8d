/**
 * The two small helpers of the analysis utilities module that are inlined
 * into shared scripts: `format_args`, which prepares query arguments, and
 * `_arg_to_list`, which normalises a column argument.
 */
module TmUtils {
  import opened PyStr

  /** The argument values `format_args` accepts: `int | str | list[int] | list[str]`. */
  datatype Value =
    | Int(i: int)
    | Str(s: string)
    | IntList(ints: seq<int>)
    | StrList(strs: seq<string>)

  predicate IsList(v: Value) {
    v.IntList? || v.StrList?
  }

  predicate IsDigit(c: char) {
    '0' <= c <= '9'
  }

  predicate IsDigits(s: string) {
    forall i :: 0 <= i < |s| ==> IsDigit(s[i])
  }

  function DigitChar(d: nat): (c: char)
    requires d < 10
    ensures IsDigit(c) && c as int - '0' as int == d
  {
    ('0' as int + d) as char
  }

  /** `str(n)` for `n >= 0`: its decimal digits, with no leading zero. */
  function NatToStr(n: nat): (r: string)
    ensures |r| >= 1 && IsDigits(r)
    ensures r[0] == '0' ==> n == 0
    decreases n
  {
    if n < 10 then [DigitChar(n)] else NatToStr(n / 10) + [DigitChar(n % 10)]
  }

  /** The number a string of decimal digits denotes. */
  function DecimalValue(s: string): nat
    requires IsDigits(s)
  {
    if s == [] then 0
    else 10 * DecimalValue(s[..|s| - 1]) + (s[|s| - 1] as int - '0' as int)
  }

  /** Reading back the digits `str` writes gives the number again. */
  lemma {:induction false} DecimalRoundTrip(n: nat)
    ensures DecimalValue(NatToStr(n)) == n
    decreases n
  {
    if n >= 10 {
      DecimalRoundTrip(n / 10);
      var r := NatToStr(n);
      assert r[..|r| - 1] == NatToStr(n / 10);
    }
  }

  /** `str(n)` for any integer: a '-' before the digits of a negative number. */
  function IntToStr(n: int): (r: string)
    ensures |r| >= 1
    ensures n < 0 <==> r[0] == '-'
    ensures IsDigits(if n < 0 then r[1..] else r)
    ensures ',' !in r
  {
    if n < 0 then "-" + NatToStr(-n) else NatToStr(n)
  }

  /** `[str(element) for element in value]` for a list value. */
  function ElementStrings(v: Value): (r: seq<string>)
    requires IsList(v)
    ensures |r| == if v.IntList? then |v.ints| else |v.strs|
  {
    match v
    case IntList(xs) => seq(|xs|, i requires 0 <= i < |xs| => IntToStr(xs[i]))
    case StrList(xs) => xs
  }

  /**
   * What `format_args` makes of one value: a list becomes the ", "-join of
   * its elements' string forms; an int or a str is kept as it is (strings
   * are not quoted, whatever the docstring says).
   */
  function FormatValue(v: Value): (r: Value)
    ensures !IsList(r)
    ensures !IsList(v) ==> r == v
    ensures IsList(v) ==> r.Str?
    ensures v.IntList? ==> (r.s == "" <==> v.ints == [])
    ensures v.StrList? && v.strs == [] ==> r.s == ""
  {
    if IsList(v) then Str(Join(", ", ElementStrings(v))) else v
  }

  /** Formatting twice is formatting once. */
  lemma FormatValueIdempotent(v: Value)
    ensures FormatValue(FormatValue(v)) == FormatValue(v)
  {
  }

  /**
   * `format_args(args)`: works on a copy, so `args` is untouched; every key is
   * kept, and every value is formatted by `FormatValue`.
   */
  method FormatArgs(args: map<string, Value>) returns (argsOut: map<string, Value>)
    ensures argsOut.Keys == args.Keys
    ensures forall key :: key in args ==> argsOut[key] == FormatValue(args[key])
  {
    argsOut := args;
    var todo := argsOut.Keys;
    while todo != {}
      invariant todo <= args.Keys && argsOut.Keys == args.Keys
      invariant forall key :: key in todo ==> argsOut[key] == args[key]
      invariant forall key :: key in args && key !in todo ==> argsOut[key] == FormatValue(args[key])
      decreases todo
    {
      var key :| key in todo;
      var value := argsOut[key];
      if IsList(value) {
        argsOut := argsOut[key := Str(Join(", ", ElementStrings(value)))];
      }
      todo := todo - {key};
    }
  }

  /** The parts `s.split(",")` gives for a joined list: the first element, then each later one after its space. */
  function SpacedTail(xs: seq<string>): (r: seq<string>)
    ensures |r| == |xs|
    ensures forall i :: 0 <= i < |xs| ==> r[i] == " " + xs[i]
  {
    if xs == [] then [] else [" " + xs[0]] + SpacedTail(xs[1..])
  }

  /** Splitting at the first separator of `a + [sep] + b` when `a` has none. */
  lemma SplitAt(a: string, sep: char, b: string)
    requires sep !in a
    ensures Split(a + [sep] + b, sep) == [a] + Split(b, sep)
  {
    var s := a + [sep] + b;
    assert s[..|a|] == a && s[|a|] == sep;
    assert s[|a| + 1..] == b;
  }

  /**
   * A ", "-joined list of comma-free strings splits back at the commas into
   * its elements, each after the first keeping the space of the separator.
   */
  lemma {:induction false} SplitJoinComma(p: string, xs: seq<string>)
    requires xs != [] && ',' !in p
    requires forall i :: 0 <= i < |xs| ==> ',' !in xs[i]
    ensures Split(p + Join(", ", xs), ',') == [p + xs[0]] + SpacedTail(xs[1..])
    decreases |xs|
  {
    if |xs| == 1 {
      assert ',' !in p + xs[0];
    } else {
      var rest := Join(", ", xs[1..]);
      assert p + Join(", ", xs) == (p + xs[0]) + [','] + (" " + rest);
      assert ',' !in p + xs[0];
      SplitAt(p + xs[0], ',', " " + rest);
      SplitJoinComma(" ", xs[1..]);
      assert [" " + xs[1]] + SpacedTail(xs[2..]) == SpacedTail(xs[1..]);
    }
  }

  /**
   * A formatted integer list can be read back: splitting it at the commas
   * gives `str` of each element, the later ones after a space.
   */
  lemma FormatIntListSplits(xs: seq<int>)
    requires xs != []
    ensures Split(FormatValue(IntList(xs)).s, ',')
            == [IntToStr(xs[0])] + SpacedTail(ElementStrings(IntList(xs))[1..])
  {
    var strs := ElementStrings(IntList(xs));
    assert FormatValue(IntList(xs)).s == Join(", ", strs);
    CommaFree(xs, strs);
    SplitJoinComma("", strs);
    assert "" + Join(", ", strs) == Join(", ", strs);
    assert "" + strs[0] == strs[0];
  }

  lemma CommaFree(xs: seq<int>, strs: seq<string>)
    requires strs == ElementStrings(IntList(xs))
    ensures forall i :: 0 <= i < |strs| ==> ',' !in strs[i]
    ensures strs != [] ==> strs[0] == IntToStr(xs[0])
  {
  }

  /** The column arguments `_arg_to_list` accepts: `str | list[str] | None`. */
  datatype Arg = StrArg(s: string) | ListArg(items: seq<string>) | NoArg

  /**
   * `_arg_to_list(arg)`: a list is copied, a string becomes a one-element
   * list, None becomes the empty list; the result is empty exactly for None
   * and for the empty list.
   */
  function ArgToList(arg: Arg): (r: seq<string>)
    ensures arg.ListArg? ==> r == arg.items
    ensures arg.StrArg? ==> r == [arg.s]
    ensures arg.NoArg? ==> r == []
    ensures |r| == 0 <==> arg == NoArg || arg == ListArg([])
  {
    match arg
    case ListArg(items) => items
    case StrArg(s) => [s]
    case NoArg => []
  }
}

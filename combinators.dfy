/**
  The character-level parsers and the list combinator that the query parsers are
  built from, as the nom library behaves on `&str` input (ASCII classes only).

  A parser maps the remaining input to an Outcome: `Done(rest, value)` on success,
  `Error` for a recoverable failure (nom's `Err::Error`, which lets an ordered
  choice or a list try something else) and `Panic` for a `panic!` in the rule
  itself, which no combinator recovers from.
*/
module Combinators {

  /** The two `panic!`s of the query parser. */
  datatype Abort = QueryNotRecognized | ColumnStatementNotRecognized

  datatype Outcome<+T> = Done(rest: string, value: T) | Error | Panic(abort: Abort) {
    /** What Rust's `?` returns from a failed step. */
    function Propagate<U>(): Outcome<U>
      requires !Done?
    {
      if Error? then Error else Panic(abort)
    }
  }

  /**
    `r` is what is left of `s` once a prefix of `s` has been consumed, stated
    one dropped character at a time (SuffixMeans gives the closed form).
  */
  predicate IsSuffix(r: string, s: string)
    decreases |s|
  {
    |r| <= |s| && (r == s || (|s| > 0 && IsSuffix(r, s[1..])))
  }

  lemma SuffixMeans(r: string, s: string)
    ensures IsSuffix(r, s) <==> |r| <= |s| && s[|s| - |r|..] == r
  {
    if |r| <= |s| && s[|s| - |r|..] == r {
      DropIsSuffix(s, |s| - |r|);
    }
    if IsSuffix(r, s) {
      SuffixIsTail(r, s);
    }
  }

  lemma {:induction false} SuffixIsTail(r: string, s: string)
    requires IsSuffix(r, s)
    ensures s[|s| - |r|..] == r
    decreases |s|
  {
    if r != s {
      SuffixIsTail(r, s[1..]);
      assert s[1..][|s| - 1 - |r|..] == s[|s| - |r|..];
    }
  }

  lemma {:induction false} DropIsSuffix(s: string, n: nat)
    requires n <= |s|
    ensures IsSuffix(s[n..], s)
    decreases n
  {
    if n > 0 {
      DropIsSuffix(s[1..], n - 1);
      assert s[1..][n - 1..] == s[n..];
    }
  }

  lemma {:induction false} SuffixTransitive(a: string, b: string, c: string)
    requires IsSuffix(a, b) && IsSuffix(b, c)
    ensures IsSuffix(a, c)
    decreases |c|
  {
    if b != c {
      SuffixTransitive(a, b, c[1..]);
    }
  }

  /** A parser that succeeds only ever consumes a prefix of its input. */
  predicate Consumes<T>(o: Outcome<T>, s: string) {
    o.Done? ==> IsSuffix(o.rest, s)
  }

  /** ... and consumes at least one character. */
  predicate Advances<T>(o: Outcome<T>, s: string) {
    o.Done? ==> IsSuffix(o.rest, s) && |o.rest| < |s|
  }

  predicate StartsWith(s: string, t: string) {
    |t| <= |s| && s[..|t|] == t
  }

  predicate IsSpace(c: char) { c == ' ' || c == '\t' }
  predicate IsAlpha(c: char) { 'a' <= c <= 'z' || 'A' <= c <= 'Z' }
  predicate IsDigit(c: char) { '0' <= c <= '9' }
  predicate IsAlnum(c: char) { IsAlpha(c) || IsDigit(c) }

  predicate All(p: char -> bool, s: string) {
    forall i :: 0 <= i < |s| ==> p(s[i])
  }

  /** The length of the longest prefix of `s` whose characters all satisfy `p`. */
  function TakeWhile(p: char -> bool, s: string): (n: nat)
    ensures n <= |s|
    ensures All(p, s[..n])
    ensures n < |s| ==> !p(s[n])
  {
    if |s| == 0 || !p(s[0]) then 0
    else
      var n := 1 + TakeWhile(p, s[1..]);
      assert s[..n] == [s[0]] + s[1..][..n - 1];
      n
  }

  /**
    The longest non-empty run of characters satisfying `p` (nom's
    `split_at_position1_complete`); fails when the first character does not
    satisfy `p`, or the input is empty.
  */
  function TakeWhile1(p: char -> bool, s: string): (r: Outcome<string>)
    ensures !r.Panic?
    ensures r.Done? <==> |s| > 0 && p(s[0])
    ensures r.Done? ==> s == r.value + r.rest && |r.value| > 0 && All(p, r.value)
    ensures r.Done? ==> r.rest == [] || !p(r.rest[0])
    ensures Advances(r, s)
  {
    var n := TakeWhile(p, s);
    if n == 0 then Error
    else
      assert s == s[..n] + s[n..];
      DropIsSuffix(s, n);
      Done(s[n..], s[..n])
  }

  /** A non-empty run of spaces and tabs, what `space1` consumes. */
  predicate Spaces(w: string) {
    |w| > 0 && All(IsSpace, w)
  }

  /** nom's `space1`: one or more spaces or tabs. */
  function Space1(s: string): Outcome<string> { TakeWhile1(IsSpace, s) }

  /** nom's `alpha1`: one or more ASCII letters. */
  function Alpha1(s: string): Outcome<string> { TakeWhile1(IsAlpha, s) }

  /** nom's `alphanumeric1`: one or more ASCII letters or digits. */
  function Alphanumeric1(s: string): Outcome<string> { TakeWhile1(IsAlnum, s) }

  /** nom's `tag(t)`: the input starts with `t`. */
  function Tag(t: string, s: string): (r: Outcome<string>)
    ensures !r.Panic?
    ensures r.Done? <==> StartsWith(s, t)
    ensures r.Done? ==> r.value == t && s == t + r.rest
    ensures Consumes(r, s)
  {
    if StartsWith(s, t) then
      assert s == t + s[|t|..];
      DropIsSuffix(s, |t|);
      Done(s[|t|..], t)
    else Error
  }

  const MinI32: int := -0x8000_0000
  const MaxI32: int := 0x7fff_ffff

  /** The values of Rust's `i32`. */
  type int32 = x: int | MinI32 <= x <= MaxI32

  function DigitValue(c: char): nat
    requires IsDigit(c)
  {
    c as int - '0' as int
  }

  /** The value of a run of decimal digits, most significant first. */
  function DigitsValue(d: string): nat
    requires All(IsDigit, d)
  {
    if |d| == 0 then 0
    else 10 * DigitsValue(d[..|d| - 1]) + DigitValue(d[|d| - 1])
  }

  /** How many leading characters of `s` are a `-` or `+` sign: none or one. */
  function SignLength(s: string): (k: nat)
    ensures k <= |s|
  {
    if |s| > 0 && (s[0] == '-' || s[0] == '+') then 1 else 0
  }

  /** The magnitude `m` with the sign that `s` starts with. */
  function Signed(s: string, m: nat): int {
    if |s| > 0 && s[0] == '-' then -(m as int) else m
  }

  /**
    nom's `character::complete::i32`: an optional `-` or `+`, then the longest
    non-empty run of digits, whose signed value must fit in an `i32`. nom fails
    as soon as a prefix of the digits overflows; since the magnitude only grows
    digit by digit, that is the same as checking the value of the whole run.
  */
  function I32(s: string): (r: Outcome<int32>)
    ensures !r.Panic?
    ensures Advances(r, s)
    ensures r.Done? ==> r.rest == [] || !IsDigit(r.rest[0])
    ensures r.Done? ==> |s| > 0 && (IsDigit(s[0]) || s[0] == '-' || s[0] == '+')
    ensures r.Done? ==>
      var n := |s| - |r.rest| - SignLength(s);
      && n >= 1
      && s == s[..SignLength(s)] + s[SignLength(s)..][..n] + r.rest
      && All(IsDigit, s[SignLength(s)..][..n])
      && r.value == Signed(s, DigitsValue(s[SignLength(s)..][..n]))
    ensures var digits := s[SignLength(s)..][..TakeWhile(IsDigit, s[SignLength(s)..])];
      r.Error? <==> |digits| == 0 || !(MinI32 <= Signed(s, DigitsValue(digits)) <= MaxI32)
  {
    var k := SignLength(s);
    var unsigned := s[k..];
    var n := TakeWhile(IsDigit, unsigned);
    if n == 0 then Error
    else
      var v: int := Signed(s, DigitsValue(unsigned[..n]));
      if MinI32 <= v <= MaxI32 then
        DropIsSuffix(s, k + n);
        assert s[k + n..] == unsigned[n..];
        assert s == s[..k] + unsigned[..n] + unsigned[n..];
        Done(unsigned[n..], v)
      else Error
  }

  /** `sep` before each part. */
  function Interleaved(sep: string, parts: seq<string>): string {
    if parts == [] then [] else sep + parts[0] + Interleaved(sep, parts[1..])
  }

  /** The parts with `sep` between consecutive ones. */
  function Joined(parts: seq<string>, sep: string): string
    requires |parts| >= 1
  {
    parts[0] + Interleaved(sep, parts[1..])
  }

  /**
    nom's `separated_list1(sep, item)`: one `item`, then as many `sep item` pairs
    as parse. When `sep` fails, or `item` fails recoverably after `sep`, the list
    ends before that `sep`; a panic in `item` ends the whole parse.
  */
  function SeparatedList1<T>(sep: string, item: string -> Outcome<T>, s: string): (r: Outcome<seq<T>>)
    requires sep != []
    requires forall t :: Consumes(item(t), t)
    ensures Consumes(r, s)
    ensures r.Error? <==> item(s).Error?
    ensures r.Done? ==> |r.value| >= 1 && item(s).Done? && r.value[0] == item(s).value
    ensures r.Done? ==> IsSuffix(r.rest, item(s).rest)
    ensures r.Done? ==> !StartsWith(r.rest, sep) || item(r.rest[|sep|..]).Error?
    ensures (forall t :: !item(t).Panic?) ==> !r.Panic?
  {
    match item(s)
    case Error => Error
    case Panic(a) => Panic(a)
    case Done(rest, first) =>
      var tail := SeparatedTail(sep, item, rest);
      if tail.Done? then
        SuffixTransitive(tail.rest, rest, s);
        Done(tail.rest, [first] + tail.value)
      else tail
  }

  /** The `sep item` repetitions of `SeparatedList1`. */
  function SeparatedTail<T>(sep: string, item: string -> Outcome<T>, s: string): (r: Outcome<seq<T>>)
    requires sep != []
    requires forall t :: Consumes(item(t), t)
    ensures !r.Error?
    ensures Consumes(r, s)
    ensures r.Done? ==> !StartsWith(r.rest, sep) || item(r.rest[|sep|..]).Error?
    ensures (forall t :: !item(t).Panic?) ==> !r.Panic?
    decreases |s|
  {
    var afterSep := Tag(sep, s);
    if !afterSep.Done? then Done(s, [])
    else
      match item(afterSep.rest)
      case Error => Done(s, [])
      case Panic(a) => Panic(a)
      case Done(rest, x) =>
        assert Consumes(item(afterSep.rest), afterSep.rest);
        SuffixTransitive(rest, afterSep.rest, s);
        var tail := SeparatedTail(sep, item, rest);
        if tail.Done? then
          SuffixTransitive(tail.rest, rest, s);
          Done(tail.rest, [x] + tail.value)
        else tail
  }

  /** Every element of a parsed list is a value that `item` returned. */
  lemma {:induction false} SeparatedListValues<T>(sep: string, item: string -> Outcome<T>, ok: T -> bool, s: string)
    requires sep != []
    requires forall t :: Consumes(item(t), t)
    requires forall t :: item(t).Done? ==> ok(item(t).value)
    ensures SeparatedList1(sep, item, s).Done? ==> forall x :: x in SeparatedList1(sep, item, s).value ==> ok(x)
  {
    if item(s).Done? {
      SeparatedTailValues(sep, item, ok, item(s).rest);
    }
  }

  lemma {:induction false} SeparatedTailValues<T>(sep: string, item: string -> Outcome<T>, ok: T -> bool, s: string)
    requires sep != []
    requires forall t :: Consumes(item(t), t)
    requires forall t :: item(t).Done? ==> ok(item(t).value)
    ensures SeparatedTail(sep, item, s).Done? ==> forall x :: x in SeparatedTail(sep, item, s).value ==> ok(x)
    decreases |s|
  {
    var afterSep := Tag(sep, s);
    if afterSep.Done? && item(afterSep.rest).Done? {
      SeparatedTailValues(sep, item, ok, item(afterSep.rest).rest);
    }
  }

  /** When `item` returns the text it consumed, a parsed list is that text, joined by `sep`. */
  lemma {:induction false} SeparatedListText(sep: string, item: string -> Outcome<string>, s: string)
    requires sep != []
    requires forall t :: Consumes(item(t), t)
    requires forall t :: item(t).Done? ==> t == item(t).value + item(t).rest
    ensures var r := SeparatedList1(sep, item, s);
      r.Done? ==> s == Joined(r.value, sep) + r.rest
  {
    var r := SeparatedList1(sep, item, s);
    if r.Done? {
      var first := item(s);
      SeparatedTailText(sep, item, first.rest);
      var tail := SeparatedTail(sep, item, first.rest);
      assert r.value == [first.value] + tail.value;
      assert r.value[1..] == tail.value;
    }
  }

  lemma {:induction false} SeparatedTailText(sep: string, item: string -> Outcome<string>, s: string)
    requires sep != []
    requires forall t :: Consumes(item(t), t)
    requires forall t :: item(t).Done? ==> t == item(t).value + item(t).rest
    ensures var r := SeparatedTail(sep, item, s);
      r.Done? ==> s == Interleaved(sep, r.value) + r.rest
    decreases |s|
  {
    var afterSep := Tag(sep, s);
    if afterSep.Done? && item(afterSep.rest).Done? {
      var x := item(afterSep.rest);
      assert Consumes(x, afterSep.rest);
      SuffixTransitive(x.rest, afterSep.rest, s);
      SeparatedTailText(sep, item, x.rest);
      var tail := SeparatedTail(sep, item, x.rest);
      if tail.Done? {
        var parts := [x.value] + tail.value;
        assert parts[1..] == tail.value;
        calc {
          s;
          sep + afterSep.rest;
          sep + (x.value + x.rest);
          sep + (x.value + (Interleaved(sep, tail.value) + tail.rest));
          sep + x.value + Interleaved(sep, tail.value) + tail.rest;
          Interleaved(sep, parts) + tail.rest;
        }
      }
    }
  }
}

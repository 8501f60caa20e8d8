/** Regular expressions, as far as the lexical rules of the compiler use them. */
module Regexp {

  /** A character class: `[lo-hi]`, or the union of two. */
  datatype Chars = Span(lo: char, hi: char) | Union(left: Chars, right: Chars)

  ghost predicate Has(chars: Chars, c: char) {
    match chars
    case Span(lo, hi) => lo <= c <= hi
    case Union(a, b) => Has(a, c) || Has(b, c)
  }

  datatype Regex = Class(chars: Chars) | Cat(first: Regex, second: Regex) | Opt(r: Regex) | Star(r: Regex)

  /** The expression matches the whole string. */
  ghost predicate Matches(r: Regex, s: string)
    decreases r, |s|
  {
    match r
    case Class(chars) => |s| == 1 && Has(chars, s[0])
    case Cat(a, b) => exists i :: 0 <= i <= |s| && Matches(a, s[..i]) && Matches(b, s[i..])
    case Opt(a) => s == "" || Matches(a, s)
    case Star(a) => s == "" || exists i :: 0 < i <= |s| && Matches(a, s[..i]) && Matches(r, s[i..])
  }

  ghost predicate AllIn(s: string, chars: Chars) { forall i :: 0 <= i < |s| ==> Has(chars, s[i]) }

  lemma {:induction false} StarOfClass(chars: Chars, s: string)
    ensures Matches(Star(Class(chars)), s) <==> AllIn(s, chars)
  {
    hide Has;
    var r := Star(Class(chars));
    if s != "" {
      assert s[..1][0] == s[0];
      StarOfClass(chars, s[1..]);
      assert AllIn(s, chars) <==> Has(chars, s[0]) && AllIn(s[1..], chars) by { assert s == [s[0]] + s[1..]; }
      if Matches(r, s) {
        var i :| 0 < i <= |s| && Matches(Class(chars), s[..i]) && Matches(r, s[i..]);
        assert i == 1;
      }
    }
  }

  /** A class, then any number of characters of another. */
  lemma ClassThenMany(c: Chars, chars: Chars, s: string)
    ensures Matches(Cat(Class(c), Star(Class(chars))), s) <==> s != "" && Has(c, s[0]) && AllIn(s[1..], chars)
  {
    hide Has;
    var r := Cat(Class(c), Star(Class(chars)));
    if Matches(r, s) {
      var i :| 0 <= i <= |s| && Matches(Class(c), s[..i]) && Matches(Star(Class(chars)), s[i..]);
      assert i == 1;
      StarOfClass(chars, s[1..]);
    }
    if s != "" && Has(c, s[0]) && AllIn(s[1..], chars) {
      StarOfClass(chars, s[1..]);
      assert Matches(Class(c), s[..1]);
    }
  }

  /** Any number of characters of a class, then one of another. */
  lemma ManyThenClass(chars: Chars, c: Chars, s: string)
    ensures Matches(Cat(Star(Class(chars)), Class(c)), s)
       <==> s != "" && Has(c, s[|s| - 1]) && AllIn(s[..|s| - 1], chars)
  {
    hide Has;
    var r := Cat(Star(Class(chars)), Class(c));
    if Matches(r, s) {
      var i :| 0 <= i <= |s| && Matches(Star(Class(chars)), s[..i]) && Matches(Class(c), s[i..]);
      assert i == |s| - 1;
      StarOfClass(chars, s[..i]);
    }
    if s != "" && Has(c, s[|s| - 1]) && AllIn(s[..|s| - 1], chars) {
      StarOfClass(chars, s[..|s| - 1]);
      assert Matches(Class(c), s[|s| - 1..]);
    }
  }

  /** One character, optionally followed by others that end in one of the first class. */
  lemma Delimited(c: Chars, chars: Chars, s: string)
    ensures Matches(Cat(Class(c), Opt(Cat(Star(Class(chars)), Class(c)))), s)
       <==> && s != "" && Has(c, s[0]) && Has(c, s[|s| - 1])
            && (|s| > 1 ==> AllIn(s[1..|s| - 1], chars))
  {
    hide Has;
    var tail := Opt(Cat(Star(Class(chars)), Class(c)));
    var r := Cat(Class(c), tail);
    if Matches(r, s) {
      var i :| 0 <= i <= |s| && Matches(Class(c), s[..i]) && Matches(tail, s[i..]);
      assert i == 1;
      if |s| > 1 { TailExactly(c, chars, s); }
    }
    if s != "" && Has(c, s[0]) && Has(c, s[|s| - 1]) && (|s| > 1 ==> AllIn(s[1..|s| - 1], chars)) {
      if |s| > 1 { TailExactly(c, chars, s); } else { assert s[1..] == ""; }
      assert Matches(Class(c), s[..1]) && Matches(tail, s[1..]);
    }
  }

  lemma TailExactly(c: Chars, chars: Chars, s: string)
    requires |s| > 1
    ensures Matches(Opt(Cat(Star(Class(chars)), Class(c))), s[1..])
       <==> Has(c, s[|s| - 1]) && AllIn(s[1..|s| - 1], chars)
  {
    hide Has;
    ManyThenClass(chars, c, s[1..]);
    assert s[1..][..|s[1..]| - 1] == s[1..|s| - 1];
  }
}

/** The string operations of Go's standard library that the components rely on:
    byte order, `sort.Strings`, `strings.ReplaceAll` and splitting. */
module Strings {

  /** Go strings are byte sequences; where the bytes matter, a string is a sequence of characters below 256. */
  predicate IsBytes(s: string) { forall i :: 0 <= i < |s| ==> s[i] < '\U{100}' }

  type Bytes = s: string | IsBytes(s)

  /* ---------- bytes ---------- */

  /** Length in bytes of the UTF-8 encoding. */
  function ByteLen(s: string): (n: nat)
    ensures n >= |s|
  {
    if s == [] then 0 else CharLen(s[0]) + ByteLen(s[1..])
  }

  function CharLen(c: char): nat {
    if c < '\U{80}' then 1 else if c < '\U{800}' then 2 else if c < '\U{10000}' then 3 else 4
  }

  /** A character takes one, two, three or four bytes when its code has at most 7, 11, 16 or 21 bits. */
  lemma CharLenIsLeast(c: char)
    ensures 1 <= CharLen(c) <= 4
    ensures CharLen(c) <= 1 <==> (c as int) / 128 == 0
    ensures CharLen(c) <= 2 <==> (c as int) / 2048 == 0
    ensures CharLen(c) <= 3 <==> (c as int) / 65536 == 0
  {}

  lemma {:induction false} ByteLenConcat(a: string, b: string)
    ensures ByteLen(a + b) == ByteLen(a) + ByteLen(b)
  {
    if a == [] {
      assert a + b == b;
    } else {
      assert (a + b)[1..] == a[1..] + b;
      ByteLenConcat(a[1..], b);
    }
  }

  /* ---------- order ---------- */

  /** Go's `<` on strings. */
  predicate Less(a: string, b: string) {
    b != [] && (a == [] || a[0] < b[0] || (a[0] == b[0] && Less(a[1..], b[1..])))
  }

  /** One string is less than another when it is a proper prefix of it, or smaller where they first differ. */
  lemma {:induction false} LessExactly(a: string, b: string)
    ensures Less(a, b) <==>
            exists n :: 0 <= n <= |a| && n < |b| && a[..n] == b[..n] && (n == |a| || a[n] < b[n])
  {
    if a != "" && b != "" && a[0] == b[0] {
      LessExactly(a[1..], b[1..]);
      var x, y := a[1..], b[1..];
      if n :| 0 <= n <= |x| && n < |y| && x[..n] == y[..n] && (n == |x| || x[n] < y[n]) {
        assert a[..n + 1] == [a[0]] + x[..n] && b[..n + 1] == [b[0]] + y[..n];
      }
      if n :| 0 <= n <= |a| && n < |b| && a[..n] == b[..n] && (n == |a| || a[n] < b[n]) {
        assert n > 0;
        assert x[..n - 1] == a[..n][1..] && y[..n - 1] == b[..n][1..];
      }
    } else if Less(a, b) {
      assert a[..0] == b[..0];
    }
  }

  lemma {:induction false} LessTotal(a: string, b: string)
    ensures a == b || Less(a, b) || Less(b, a)
    ensures !(Less(a, b) && Less(b, a))
    ensures !Less(a, a)
  {
    if a != [] {
      LessTotal(a[1..], a[1..]);
      if b != [] && a[0] == b[0] {
        LessTotal(a[1..], b[1..]);
        assert a == [a[0]] + a[1..] && b == [b[0]] + b[1..];
      }
    }
  }

  lemma {:induction false} LessTransitive(a: string, b: string, c: string)
    requires Less(a, b) && Less(b, c)
    ensures Less(a, c)
  {
    if a != [] && a[0] == b[0] && b[0] == c[0] {
      LessTransitive(a[1..], b[1..], c[1..]);
    }
  }

  lemma NotLessTransitive(a: string, b: string, c: string)
    requires !Less(b, a) && !Less(c, b)
    ensures !Less(c, a)
  {}

  ghost predicate Ascending(s: seq<string>) {
    forall i, j :: 0 <= i < j < |s| ==> !Less(s[j], s[i])
  }

  ghost predicate StrictlyAscending(s: seq<string>) {
    forall i, j :: 0 <= i < j < |s| ==> Less(s[i], s[j])
  }

  ghost predicate NoDuplicates<T>(s: seq<T>) {
    forall i, j :: 0 <= i < j < |s| ==> s[i] != s[j]
  }

  function Elems(s: seq<string>): set<string> {
    set x | x in s
  }

  /* ---------- sort.Strings ---------- */

  function Insert(x: string, s: seq<string>): (r: seq<string>) {
    if s == [] || !Less(s[0], x) then [x] + s else [s[0]] + Insert(x, s[1..])
  }

  /** `sort.Strings`; equal strings are indistinguishable, so any sorting algorithm gives this result. */
  function Sort(s: seq<string>): (r: seq<string>) {
    if s == [] then [] else Insert(s[0], Sort(s[1..]))
  }

  lemma AscendingCons(x: string, s: seq<string>)
    requires Ascending(s) && forall j :: 0 <= j < |s| ==> !Less(s[j], x)
    ensures Ascending([x] + s)
  {
    hide Less;
  }

  lemma {:induction false} InsertSorts(x: string, s: seq<string>)
    requires Ascending(s)
    ensures Ascending(Insert(x, s))
    ensures multiset(Insert(x, s)) == multiset(s) + multiset{x}
  {
    hide Less;
    if s == [] {
    } else if !Less(s[0], x) {
      forall j | 0 <= j < |s| ensures !Less(s[j], x) {
        if j > 0 { NotLessTransitive(x, s[0], s[j]); }
      }
      AscendingCons(x, s);
    } else {
      var t := Insert(x, s[1..]);
      InsertSorts(x, s[1..]);
      assert s == [s[0]] + s[1..];
      forall j | 0 <= j < |t| ensures !Less(t[j], s[0]) {
        assert t[j] in multiset(t);
        if t[j] == x { LessTotal(s[0], x); } else { assert t[j] in s[1..]; }
      }
      AscendingCons(s[0], t);
    }
  }

  lemma {:induction false} SortSorts(s: seq<string>)
    ensures Ascending(Sort(s))
    ensures multiset(Sort(s)) == multiset(s)
    ensures |Sort(s)| == |s|
  {
    hide Less, Insert;
    if s != [] {
      SortSorts(s[1..]);
      InsertSorts(s[0], Sort(s[1..]));
      assert s == [s[0]] + s[1..];
    }
    assert |multiset(Sort(s))| == |Sort(s)|;
    assert |multiset(s)| == |s|;
  }

  lemma SortMembers(s: seq<string>)
    ensures forall x :: x in Sort(s) <==> x in s
  {
    SortSorts(s);
    forall x ensures x in Sort(s) <==> x in s {
      assert x in Sort(s) <==> x in multiset(Sort(s));
      assert x in s <==> x in multiset(s);
    }
  }

  lemma {:induction false} MultisetNoDuplicates<T>(s: seq<T>)
    ensures NoDuplicates(s) <==> forall x :: multiset(s)[x] <= 1
  {
    if NoDuplicates(s) {
      forall x ensures multiset(s)[x] <= 1 {
        NoDuplicatesCount(s, x);
      }
    } else {
      var i, j :| 0 <= i < j < |s| && s[i] == s[j];
      assert s == s[..j] + [s[j]] + s[j+1..];
      assert s[i] in s[..j];
      assert multiset(s)[s[j]] >= 2;
    }
  }

  lemma {:induction false} NoDuplicatesCount<T>(s: seq<T>, x: T)
    requires NoDuplicates(s)
    ensures multiset(s)[x] <= 1
  {
    if s != [] {
      assert s == [s[0]] + s[1..];
      NoDuplicatesCount(s[1..], x);
      if x == s[0] { assert x !in s[1..]; }
    }
  }

  /** Sorting a duplicate-free list gives a strictly ascending one. */
  lemma SortStrict(s: seq<string>)
    requires NoDuplicates(s)
    ensures StrictlyAscending(Sort(s)) && NoDuplicates(Sort(s))
  {
    SortSorts(s);
    MultisetNoDuplicates(s);
    MultisetNoDuplicates(Sort(s));
    var t := Sort(s);
    forall i, j | 0 <= i < j < |t| ensures Less(t[i], t[j]) {
      LessTotal(t[i], t[j]);
    }
  }

  /** `unicode.IsSpace`. */
  predicate Space(c: char) {
    c == ' ' || '\t' <= c <= '\r' || c == '\U{85}' || c == '\U{A0}' || c == '\U{1680}' || '\U{2000}' <= c <= '\U{200A}'
    || c == '\U{2028}' || c == '\U{2029}' || c == '\U{202F}' || c == '\U{205F}' || c == '\U{3000}'
  }

  /** These are the characters with the Unicode property White_Space. */
  lemma SpaceExactly(c: char)
    ensures Space(c) <==> c as int in {
              9, 10, 11, 12, 13, 32, 0x85, 0xA0, 0x1680, 0x2000, 0x2001, 0x2002, 0x2003, 0x2004, 0x2005, 0x2006, 0x2007,
              0x2008, 0x2009, 0x200A, 0x2028, 0x2029, 0x202F, 0x205F, 0x3000}
  {}

  /* ---------- searching and replacing ---------- */

  /** `pat` occurs in `s` at position `i`. */
  predicate OccursAt(s: string, pat: string, i: int) {
    0 <= i && i + |pat| <= |s| && s[i..i + |pat|] == pat
  }

  /** `strings.Contains`. */
  ghost predicate Contains(s: string, pat: string) {
    exists i :: OccursAt(s, pat, i)
  }

  /** `strings.ReplaceAll` for a nonempty `old`: leftmost matches, not overlapping. */
  function ReplaceAll(s: string, old_: string, new_: string): (r: string)
    requires old_ != []
  {
    if |s| < |old_| then s
    else if s[..|old_|] == old_ then new_ + ReplaceAll(s[|old_|..], old_, new_)
    else [s[0]] + ReplaceAll(s[1..], old_, new_)
  }

  /** Scanning passes over `m` when `u` is not found in it. */
  lemma {:induction false} Skips(m: string, rest: string, u: string, new_: string)
    requires u != [] && forall i :: 0 <= i < |m| ==> !OccursAt(m + rest, u, i)
    ensures ReplaceAll(m + rest, u, new_) == m + ReplaceAll(rest, u, new_)
  {
    var s := m + rest;
    if m == [] {
      assert s == rest;
    } else {
      var s' := m[1..] + rest;
      assert s == [m[0]] + s';
      assert !OccursAt(s, u, 0);
      forall i | 0 <= i < |m[1..]| ensures !OccursAt(s', u, i) {
        OccursShifted([m[0]], s', u, i + 1);
      }
      Skips(m[1..], rest, u, new_);
      assert s[1..] == s';
      var r := ReplaceAll(rest, u, new_);
      assert m + r == [m[0]] + (m[1..] + r);
    }
  }

  lemma OccursShifted(a: string, b: string, u: string, i: int)
    requires i >= |a|
    ensures OccursAt(a + b, u, i) <==> OccursAt(b, u, i - |a|)
  {}

  /** Position of the first `c` in `s`, or -1 (`strings.IndexByte`). */
  function IndexByte(s: string, c: char): (i: int)
    ensures i == -1 <==> c !in s
    ensures i != -1 ==> 0 <= i < |s| && s[i] == c && c !in s[..i]
  {
    if s == [] then -1
    else if s[0] == c then 0
    else
      var i := IndexByte(s[1..], c);
      assert s == [s[0]] + s[1..];
      assert i != -1 ==> s[..i + 1] == [s[0]] + s[1..][..i];
      if i == -1 then -1 else i + 1
  }

  /** `strings.Split` on a one-character separator. */
  function SplitByte(s: string, sep: char): (parts: seq<string>)
    ensures |parts| >= 1
    decreases |s|
  {
    var i := IndexByte(s, sep);
    if i == -1 then [s] else [s[..i]] + SplitByte(s[i + 1..], sep)
  }

  /** The inverse of SplitByte. */
  function JoinByte(parts: seq<string>, sep: char): (s: string)
    requires |parts| >= 1
  {
    if |parts| == 1 then parts[0] else parts[0] + [sep] + JoinByte(parts[1..], sep)
  }

  lemma {:induction false} IndexByteOfPrefix(p: string, c: char, rest: string)
    requires c !in p
    ensures IndexByte(p + [c] + rest, c) == |p|
  {
    if p != [] {
      IndexByteOfPrefix(p[1..], c, rest);
      assert (p + [c] + rest)[1..] == p[1..] + [c] + rest;
    }
  }

  /** A string is cut at its first separator in only one way. */
  lemma SameCut(a: string, x: string, b: string, y: string, sep: char)
    requires sep !in a && sep !in b && a + [sep] + x == b + [sep] + y
    ensures a == b && x == y
  {
    IndexByteOfPrefix(a, sep, x);
    IndexByteOfPrefix(b, sep, y);
    var s := a + [sep] + x;
    assert s[..|a|] == a && s[..|a|] == b && s[|a| + 1..] == x && s[|a| + 1..] == y;
  }

  lemma {:induction false} SplitJoin(parts: seq<string>, sep: char)
    requires |parts| >= 1
    requires forall k :: 0 <= k < |parts| ==> sep !in parts[k]
    ensures SplitByte(JoinByte(parts, sep), sep) == parts
  {
    hide SplitByte;
    if |parts| == 1 {
      NoCut(parts[0], sep);
    } else {
      SplitJoin(parts[1..], sep);
      FirstCut(parts[0], sep, JoinByte(parts[1..], sep));
      assert parts == [parts[0]] + parts[1..];
    }
  }

  lemma NoCut(s: string, sep: char)
    requires sep !in s
    ensures SplitByte(s, sep) == [s]
  {}

  lemma FirstCut(p: string, sep: char, rest: string)
    requires sep !in p
    ensures SplitByte(p + [sep] + rest, sep) == [p] + SplitByte(rest, sep)
  {
    hide IndexByte;
    IndexByteOfPrefix(p, sep, rest);
    var s := p + [sep] + rest;
    assert s[..|p|] == p && s[|p| + 1..] == rest;
  }

  /** Position of the first `sep` in `s`, or -1 (`strings.Index`). */
  function Find(s: string, sep: string): (i: int)
    requires sep != []
    ensures -1 <= i <= |s| - |sep| || i == -1
  {
    if |s| < |sep| then -1
    else if s[..|sep|] == sep then 0
    else
      var i := Find(s[1..], sep);
      if i == -1 then -1 else i + 1
  }

  /** `strings.Split` */
  function SplitOn(s: string, sep: string): seq<string>
    requires sep != []
  {
    var i := Find(s, sep);
    if i == -1 then [s] else [s[..i]] + SplitOn(s[i + |sep|..], sep)
  }

  lemma {:induction false} FindAfter(a: string, sep: string, rest: string)
    requires sep != [] && forall i :: 0 <= i < |a| ==> !OccursAt(a + (sep + rest), sep, i)
    ensures Find(a + (sep + rest), sep) == |a|
  {
    var tail := sep + rest;
    if a == [] {
      assert a + tail == tail && tail[..|sep|] == sep;
    } else {
      assert a + tail == [a[0]] + (a[1..] + tail);
      forall i | 0 <= i < |a[1..]| ensures !OccursAt(a[1..] + tail, sep, i) {
        OccursShifted([a[0]], a[1..] + tail, sep, i + 1);
      }
      FindAfter(a[1..], sep, rest);
      assert !OccursAt(a + tail, sep, 0);
      assert (a + tail)[1..] == a[1..] + tail;
    }
  }

  lemma {:induction false} NotFoundAnywhere(s: string, sep: string)
    requires sep != [] && forall i :: 0 <= i < |s| ==> !OccursAt(s, sep, i)
    ensures Find(s, sep) == -1
  {
    if |s| >= |sep| {
      assert !OccursAt(s, sep, 0);
      assert s == [s[0]] + s[1..];
      forall i | 0 <= i < |s[1..]| ensures !OccursAt(s[1..], sep, i) {
        OccursShifted([s[0]], s[1..], sep, i + 1);
      }
      NotFoundAnywhere(s[1..], sep);
    }
  }

  lemma SplitAfter(a: string, sep: string, rest: string)
    requires sep != [] && forall i :: 0 <= i < |a| ==> !OccursAt(a + (sep + rest), sep, i)
    ensures SplitOn(a + (sep + rest), sep) == [a] + SplitOn(rest, sep)
  {
    hide Find;
    FindAfter(a, sep, rest);
    var s := a + (sep + rest);
    assert s[..|a|] == a && s[|a| + |sep|..] == rest;
  }
}

/** The secret redactor that text passes through before it reaches a model provider. */
module Redact {
  import opened Strings

  const MIN_SECRET_LEN := 6
  const MARK := "[REDACTED]"

  function TrimLeft(s: string): (r: string)
    ensures |r| <= |s|
  {
    if s != [] && Space(s[0]) then TrimLeft(s[1..]) else s
  }

  function TrimRight(s: string): string {
    if s != [] && Space(s[|s| - 1]) then TrimRight(s[..|s| - 1]) else s
  }

  function TrimSpace(s: string): string { TrimRight(TrimLeft(s)) }

  ghost predicate Blank(s: string) { forall i :: 0 <= i < |s| ==> Space(s[i]) }

  ghost predicate NoOuterSpace(v: string) { v != "" ==> !Space(v[0]) && !Space(v[|v| - 1]) }

  /** `value` is `v` between white space, and `v` neither starts nor ends with any. */
  ghost predicate IsCore(v: string, value: string) {
    NoOuterSpace(v) && exists left, right :: Blank(left) && Blank(right) && value == left + v + right
  }

  lemma {:induction false} TrimLeftOf(left: string, v: string)
    requires Blank(left) && (v == "" || !Space(v[0]))
    ensures TrimLeft(left + v) == v
  {
    if left == "" {
      assert left + v == v;
    } else {
      assert (left + v)[1..] == left[1..] + v;
      TrimLeftOf(left[1..], v);
    }
  }

  lemma {:induction false} TrimRightOf(v: string, right: string)
    requires Blank(right) && (v == "" || !Space(v[|v| - 1]))
    ensures TrimRight(v + right) == v
  {
    if right == "" {
      assert v + right == v;
    } else {
      assert (v + right)[..|v + right| - 1] == v + right[..|right| - 1];
      TrimRightOf(v, right[..|right| - 1]);
    }
  }

  lemma {:induction false} TrimLeftLeaves(s: string)
    ensures exists left :: Blank(left) && s == left + TrimLeft(s)
    ensures TrimLeft(s) != "" ==> !Space(TrimLeft(s)[0])
  {
    if s != "" && Space(s[0]) {
      TrimLeftLeaves(s[1..]);
      var left :| Blank(left) && s[1..] == left + TrimLeft(s[1..]);
      assert s == ([s[0]] + left) + TrimLeft(s);
      assert Blank([s[0]] + left);
    } else {
      assert Blank("") && s == "" + s;
    }
  }

  lemma {:induction false} TrimRightLeaves(s: string)
    ensures TrimRight(s) <= s && Blank(s[|TrimRight(s)|..])
    ensures TrimRight(s) != "" ==> !Space(TrimRight(s)[|TrimRight(s)| - 1])
  {
    if s != "" && Space(s[|s| - 1]) {
      var init := s[..|s| - 1];
      TrimRightLeaves(init);
      var n := |TrimRight(init)|;
      assert s[n..] == init[n..] + [s[|s| - 1]];
    }
  }

  /** Trimming a value gives exactly its core. */
  lemma TrimSpaceExactly(value: string, v: string)
    ensures IsCore(v, value) <==> TrimSpace(value) == v
  {
    hide Space;
    if IsCore(v, value) {
      var left, right :| Blank(left) && Blank(right) && value == left + v + right;
      TrimCore(left, v, right);
    }
    if TrimSpace(value) == v { TrimmedIsCore(value); }
  }

  lemma TrimCore(left: string, v: string, right: string)
    requires Blank(left) && Blank(right) && NoOuterSpace(v)
    ensures TrimSpace(left + v + right) == v
  {
    hide Space;
    if v == "" {
      TrimLeftOf(left + v + right, "");
      assert left + v + right + "" == left + v + right;
    } else {
      assert left + v + right == left + (v + right);
      TrimLeftOf(left, v + right);
      TrimRightOf(v, right);
    }
  }

  lemma TrimmedIsCore(value: string)
    ensures IsCore(TrimSpace(value), value)
  {
    hide Space, TrimLeft, TrimRight, Blank;
    TrimLeftLeaves(value);
    var rest := TrimLeft(value);
    TrimRightLeaves(rest);
    var left :| Blank(left) && value == left + rest;
    CutInThree(left, rest, TrimRight(rest));
  }

  lemma CutInThree(left: string, rest: string, v: string)
    requires v <= rest
    ensures left + rest == left + v + rest[|v|..]
  {}

  /* ---------- building a redactor ---------- */

  ghost predicate LongestFirst(s: seq<string>) {
    forall i, j :: 0 <= i < j < |s| ==> ByteLen(s[i]) >= ByteLen(s[j])
  }

  ghost predicate Usable(s: seq<string>) { forall i :: 0 <= i < |s| ==> s[i] != [] }

  function InsertByLength(x: string, s: seq<string>): seq<string> {
    if s == [] || ByteLen(s[0]) <= ByteLen(x) then [x] + s else [s[0]] + InsertByLength(x, s[1..])
  }

  function SortByLength(s: seq<string>): seq<string> {
    if s == [] then [] else InsertByLength(s[0], SortByLength(s[1..]))
  }

  lemma {:induction false} InsertByLengthMembers(x: string, s: seq<string>)
    ensures forall v :: v in InsertByLength(x, s) ==> v == x || v in s
  {
    hide ByteLen;
    if s != [] && ByteLen(s[0]) > ByteLen(x) { InsertByLengthMembers(x, s[1..]); }
  }

  lemma {:induction false} InsertByLengthSorts(x: string, s: seq<string>)
    requires LongestFirst(s)
    ensures LongestFirst(InsertByLength(x, s))
    ensures multiset(InsertByLength(x, s)) == multiset(s) + multiset{x}
  {
    hide ByteLen;
    if s != [] && ByteLen(s[0]) > ByteLen(x) {
      InsertByLengthMembers(x, s[1..]);
      InsertByLengthSorts(x, s[1..]);
      assert s == [s[0]] + s[1..];
      InFrontIsLongest(s[0], InsertByLength(x, s[1..]));
    } else {
      InFrontIsLongest(x, s);
      assert multiset([x] + s) == multiset{x} + multiset(s);
    }
  }

  lemma InFrontIsLongest(x: string, s: seq<string>)
    requires LongestFirst(s) && forall v :: v in s ==> ByteLen(v) <= ByteLen(x)
    ensures LongestFirst([x] + s)
  {}

  lemma {:induction false} SortByLengthSorts(s: seq<string>)
    ensures LongestFirst(SortByLength(s))
    ensures multiset(SortByLength(s)) == multiset(s)
  {
    if s != [] {
      SortByLengthSorts(s[1..]);
      InsertByLengthSorts(s[0], SortByLength(s[1..]));
      assert s == [s[0]] + s[1..];
    }
  }

  /** `v` is one of the values without the white space around it, and has at least six bytes. */
  ghost predicate Registered(values: seq<string>, v: string) {
    ByteLen(v) >= 6 && exists i :: 0 <= i < |values| && IsCore(v, values[i])
  }

  class Redactor {
    var secrets: seq<string>

    ghost predicate Valid()
      reads this
    {
      LongestFirst(secrets) && NoDuplicates(secrets) && Usable(secrets)
    }

    /** NewRedactor: the trimmed values of at least six bytes, each once, longest first. */
    constructor (values: seq<string>)
      ensures Valid()
      ensures forall v :: v in secrets <==> Registered(values, v)
    {
      hide ByteLen, TrimSpace, IsCore;
      var kept: seq<string> := [];
      for i := 0 to |values|
        invariant NoDuplicates(kept)
        invariant forall v :: v in kept <==> Registered(values[..i], v)
      {
        var v := TrimSpace(values[i]);
        assert values[..i + 1] == values[..i] + [values[i]];
        RegisteredOneMore(values[..i], values[i]);
        if ByteLen(v) >= MIN_SECRET_LEN && v !in kept {
          kept := kept + [v];
        }
      }
      assert values[..|values|] == values;
      SortByLengthSorts(kept);
      MultisetNoDuplicates(kept);
      MultisetNoDuplicates(SortByLength(kept));
      SameMembers(kept, SortByLength(kept));
      secrets := SortByLength(kept);
      SecretsNonempty(values, SortByLength(kept));
    }

    /** Redact, called on a possibly nil redactor. */
    static method Redact(r: Redactor?, s: string) returns (t: string)
      requires r != null ==> r.Valid()
      ensures t == if r == null then s else Redacted(r.secrets, s)
    {
      if r == null { return s; }
      t := s;
      for i := 0 to |r.secrets|
        invariant Redacted(r.secrets, s) == Redacted(r.secrets[i..], t)
      {
        t := ReplaceAll(t, r.secrets[i], MARK);
        assert r.secrets[i..][1..] == r.secrets[i + 1..];
      }
    }
  }

  lemma RegisteredOneMore(values: seq<string>, next: string)
    ensures forall v :: Registered(values + [next], v) <==>
            Registered(values, v) || (ByteLen(v) >= 6 && v == TrimSpace(next))
  {
    hide ByteLen, TrimSpace, IsCore;
    var all := values + [next];
    forall v | Registered(values, v) ensures Registered(all, v) {
      var i :| 0 <= i < |values| && IsCore(v, values[i]);
      assert all[i] == values[i];
    }
    assert all[|values|] == next;
    forall v ensures IsCore(v, next) <==> TrimSpace(next) == v { TrimSpaceExactly(next, v); }
  }

  lemma SameMembers(a: seq<string>, b: seq<string>)
    requires multiset(a) == multiset(b)
    ensures forall v :: v in a <==> v in b
  {
    forall v ensures v in a <==> v in b {
      assert v in a <==> v in multiset(a);
      assert v in b <==> v in multiset(b);
    }
  }

  lemma SecretsNonempty(values: seq<string>, secrets: seq<string>)
    requires forall v :: v in secrets ==> Registered(values, v)
    ensures Usable(secrets)
  {
    forall i | 0 <= i < |secrets| ensures secrets[i] != [] {
      assert Registered(values, secrets[i]);
    }
  }

  /** Every secret in turn is replaced by the mark. */
  ghost function Redacted(secrets: seq<string>, s: string): string
    requires Usable(secrets)
  {
    if secrets == [] then s else Redacted(secrets[1..], ReplaceAll(s, secrets[0], MARK))
  }

  /* ---------- when a secret can touch the mark ---------- */

  /** Laid over the mark from its offset `d`, `u` disagrees nowhere. */
  ghost predicate AgreesAt(u: string, d: int) {
    forall k :: 0 <= k < |u| && 0 <= d + k < |MARK| ==> u[k] == MARK[d + k]
  }

  /** Some occurrence of `u` could share a character with a mark. */
  ghost predicate Overlaps(u: string) { exists d :: -|u| < d < |MARK| && AgreesAt(u, d) }

  ghost predicate BracketFree(u: string) { '[' !in u && ']' !in u }

  lemma CoversBracket(u: string, d: int, at: int)
    requires AgreesAt(u, d) && (at == 0 || at == 9) && 0 <= at - d < |u|
    ensures !BracketFree(u)
  {
    assert u[at - d] == MARK[at];
  }

  lemma InsideTheWord(u: string, d: int)
    requires BracketFree(u) && u != [] && -|u| < d < |MARK| && AgreesAt(u, d)
    ensures OccursAt("REDACTED", u, d - 1)
  {
    if d <= 0 { CoversBracket(u, d, 0); }
    if d + |u| > 9 { CoversBracket(u, d, 9); }
    assert "REDACTED" == MARK[1..9];
    assert MARK[d..d + |u|] == u;
    assert "REDACTED"[d - 1..d - 1 + |u|] == u;
  }

  lemma WordOverlaps(u: string, i: int)
    requires u != [] && OccursAt("REDACTED", u, i)
    ensures Overlaps(u)
  {
    assert "REDACTED" == MARK[1..9];
    forall k | 0 <= k < |u| ensures u[k] == MARK[i + 1 + k] {
      assert u[k] == "REDACTED"[i..i + |u|][k];
    }
    assert AgreesAt(u, i + 1);
  }

  /** For a secret without brackets this just means that it is part of the word REDACTED. */
  lemma BracketFreeOverlaps(u: string)
    requires BracketFree(u) && u != []
    ensures Overlaps(u) <==> Contains("REDACTED", u)
  {
    hide OccursAt, AgreesAt, BracketFree;
    if d :| -|u| < d < |MARK| && AgreesAt(u, d) { InsideTheWord(u, d); }
    if i :| OccursAt("REDACTED", u, i) { WordOverlaps(u, i); }
  }

  /* ---------- completeness ---------- */

  /** No mark can start inside `v`. */
  ghost predicate NoMarkStarts(v: string) { forall d :: -|v| < d <= 0 ==> !AgreesAt(v, d) }

  lemma StartsWithMark(v: string, rest: string)
    requires v <= MARK + rest
    ensures AgreesAt(v, 0)
  {}

  lemma {:induction false} PrefixSurvives(s: string, w: string, v: string)
    requires w != [] && NoMarkStarts(v) && v <= ReplaceAll(s, w, MARK)
    ensures v <= s
  {
    if |s| < |w| || v == [] {
    } else if s[..|w|] == w {
      StartsWithMark(v, ReplaceAll(s[|w|..], w, MARK));
    } else {
      var tail := ReplaceAll(s[1..], w, MARK);
      assert v[1..] <= tail by { assert ([s[0]] + tail)[1..|v|] == v[1..]; }
      forall d | -|v[1..]| < d <= 0 ensures !AgreesAt(v[1..], d) {
        if AgreesAt(v[1..], d) {
          forall k | 0 <= k < |v| && 0 <= d - 1 + k < |MARK| ensures v[k] == MARK[d - 1 + k] {
            assert v[1..][k - 1] == v[k];
          }
          assert AgreesAt(v, d - 1);
        }
      }
      PrefixSurvives(s[1..], w, v[1..]);
      assert v == [v[0]] + v[1..] && s == [s[0]] + s[1..];
    }
  }

  /** A secret that cannot touch a mark is gone once replaced, and no later replacement brings it back. */
  lemma {:induction false} StaysOut(s: string, w: string, u: string, i: int)
    requires w != [] && u != [] && !Overlaps(u)
    requires u == w || !Contains(s, u)
    ensures !OccursAt(ReplaceAll(s, w, MARK), u, i)
    decreases |s|
  {
    hide ReplaceAll;
    Unfold(s, w);
    var r := ReplaceAll(s, w, MARK);
    if |s| < |w| || !OccursAt(r, u, i) {
    } else if s[..|w|] == w {
      var rest := ReplaceAll(s[|w|..], w, MARK);
      assert r == MARK[0..] + rest;
      if i < |MARK| {
        OccurrenceAgrees(0, rest, u, i);
      } else {
        ContainsTail(s, |w|, u);
        OccursShifted(MARK, rest, u, i);
        StaysOut(s[|w|..], w, u, i - |MARK|);
      }
    } else if i == 0 {
      PrefixSurvives(s, w, u);
      PrefixOccurs(s, u);
    } else {
      ContainsTail(s, 1, u);
      OccursShifted([s[0]], ReplaceAll(s[1..], w, MARK), u, i);
      StaysOut(s[1..], w, u, i - 1);
    }
  }

  lemma Unfold(s: string, w: string)
    requires w != []
    ensures |s| < |w| ==> ReplaceAll(s, w, MARK) == s
    ensures |s| >= |w| && s[..|w|] == w ==> ReplaceAll(s, w, MARK) == MARK + ReplaceAll(s[|w|..], w, MARK)
    ensures |s| >= |w| && s[..|w|] != w ==> ReplaceAll(s, w, MARK) == [s[0]] + ReplaceAll(s[1..], w, MARK)
  {}

  /** An occurrence that starts inside a mark agrees with it. */
  lemma OccurrenceAgrees(n: nat, rest: string, u: string, i: nat)
    requires n + i < |MARK| && OccursAt(MARK[n..] + rest, u, i)
    ensures AgreesAt(u, n + i)
  {}

  lemma PrefixOccurs(s: string, u: string)
    requires u <= s
    ensures OccursAt(s, u, 0)
  {}

  lemma ContainsTail(s: string, n: nat, u: string)
    requires n <= |s|
    ensures Contains(s[n..], u) ==> Contains(s, u)
  {
    if Contains(s[n..], u) {
      var i :| OccursAt(s[n..], u, i);
      assert s[n + i..n + i + |u|] == s[n..][i..i + |u|];
      assert OccursAt(s, u, n + i);
    }
  }

  lemma {:induction false} NeverComesBack(secrets: seq<string>, s: string, u: string)
    requires Usable(secrets) && u != [] && !Overlaps(u) && !Contains(s, u)
    ensures !Contains(Redacted(secrets, s), u)
  {
    if secrets != [] {
      var t := ReplaceAll(s, secrets[0], MARK);
      forall i ensures !OccursAt(t, u, i) { StaysOut(s, secrets[0], u, i); }
      NeverComesBack(secrets[1..], t, u);
    }
  }

  ghost predicate AllClear(secrets: seq<string>) { forall i :: 0 <= i < |secrets| ==> !Overlaps(secrets[i]) }

  ghost predicate Leaks(secrets: seq<string>, s: string)
    requires Usable(secrets)
  {
    exists i :: 0 <= i < |secrets| && Contains(Redacted(secrets, s), secrets[i])
  }

  /** If no secret can touch a mark, no text leaks any secret, in whatever order they are replaced. */
  lemma {:induction false} Complete(secrets: seq<string>, s: string)
    requires Usable(secrets) && AllClear(secrets)
    ensures !Leaks(secrets, s)
  {
    if secrets != [] {
      var t := ReplaceAll(s, secrets[0], MARK);
      forall i ensures !OccursAt(t, secrets[0], i) { StaysOut(s, secrets[0], secrets[0], i); }
      NeverComesBack(secrets[1..], t, secrets[0]);
      Complete(secrets[1..], t);
      forall j | 0 <= j < |secrets| ensures !Contains(Redacted(secrets, s), secrets[j]) {
        if j > 0 { assert secrets[j] == secrets[1..][j - 1]; }
      }
    }
  }

  lemma {:induction false} NothingToReplace(s: string, u: string)
    requires u != [] && !Contains(s, u)
    ensures ReplaceAll(s, u, MARK) == s
  {
    if |s| >= |u| {
      assert !OccursAt(s, u, 0);
      ContainsTail(s, 1, u);
      NothingToReplace(s[1..], u);
    }
  }

  lemma {:induction false} NothingToRedact(secrets: seq<string>, s: string)
    requires Usable(secrets) && forall i :: 0 <= i < |secrets| ==> !Contains(s, secrets[i])
    ensures Redacted(secrets, s) == s
  {
    if secrets != [] {
      NothingToReplace(s, secrets[0]);
      NothingToRedact(secrets[1..], s);
    }
  }

  /** Redacting twice is redacting once. */
  lemma Idempotent(secrets: seq<string>, s: string)
    requires Usable(secrets) && AllClear(secrets)
    ensures Redacted(secrets, Redacted(secrets, s)) == Redacted(secrets, s)
  {
    Complete(secrets, s);
    NothingToRedact(secrets, Redacted(secrets, s));
  }

  /* ---------- longest first ---------- */

  lemma OccurrenceIsShorter(u: string, w: string)
    requires Contains(u, w)
    ensures ByteLen(w) < ByteLen(u) || w == u
  {
    var i :| OccursAt(u, w, i);
    var a, b := u[..i], u[i + |w|..];
    assert u == a + (w + b);
    ByteLenConcat(a, w + b);
    ByteLenConcat(w, b);
    if |a| + |b| == 0 { assert a + (w + b) == w; }
  }

  lemma {:induction false} RedactedConcat(a: seq<string>, b: seq<string>, s: string)
    requires Usable(a + b)
    ensures Usable(a) && Usable(b) && Redacted(a + b, s) == Redacted(b, Redacted(a, s))
  {
    assert forall i :: 0 <= i < |a| ==> (a + b)[i] == a[i];
    assert forall i :: 0 <= i < |b| ==> (a + b)[|a| + i] == b[i];
    if a == [] {
      assert a + b == b;
    } else {
      assert (a + b)[1..] == a[1..] + b;
      RedactedConcat(a[1..], b, ReplaceAll(s, a[0], MARK));
    }
  }

  /** A secret is replaced whole, even when it contains another one. */
  lemma WholeSecret(secrets: seq<string>, k: nat)
    requires Usable(secrets) && LongestFirst(secrets) && NoDuplicates(secrets) && k < |secrets|
    requires forall j :: k < j < |secrets| ==> !Contains(MARK, secrets[j])
    ensures Redacted(secrets, secrets[k]) == MARK
  {
    hide ByteLen, Redacted, ReplaceAll, Contains;
    var u, before, after := secrets[k], secrets[..k], secrets[k + 1..];
    forall i | 0 <= i < |before| ensures !Contains(u, before[i]) {
      if Contains(u, before[i]) { OccurrenceIsShorter(u, before[i]); }
    }
    AroundOne(secrets, k);
    ReplacedWhole(before, u, after);
  }

  lemma AroundOne<T>(s: seq<T>, k: nat)
    requires k < |s|
    ensures s == s[..k] + ([s[k]] + s[k + 1..])
  {}

  lemma ReplacedWhole(before: seq<string>, u: string, after: seq<string>)
    requires Usable(before + ([u] + after)) && u != []
    requires forall i :: 0 <= i < |before| ==> !Contains(u, before[i])
    requires forall i :: 0 <= i < |after| ==> !Contains(MARK, after[i])
    ensures Redacted(before + ([u] + after), u) == MARK
  {
    hide ByteLen, Redacted, ReplaceAll, Contains, Usable;
    RedactedConcat(before, [u] + after, u);
    NothingToRedact(before, u);
    RedactedConcat([u], after, u);
    JustTheSecret(u);
    NothingToRedact(after, MARK);
  }

  lemma JustTheSecret(u: string)
    requires u != []
    ensures Redacted([u], u) == MARK
  {
    assert u[..|u|] == u && u[|u|..] == [];
    assert ReplaceAll([], u, MARK) == [];
    assert [u][1..] == [];
  }

  /** Replacing a shorter secret first would leave the rest of a longer one behind. */
  lemma ShortestFirstLeaksTheRest()
    ensures Usable(["secret", "secret-key"])
    ensures Redacted(["secret", "secret-key"], "secret-key") == "[REDACTED]-key"
  {
    var s := "secret-key";
    assert s[..6] == "secret" && s[6..] == "-key";
    assert ReplaceAll(s, "secret", MARK) == MARK + "-key";
    assert |MARK + "-key"| == 14;
    var t := MARK + "-key";
    assert forall i :: 0 <= i < |t| ==> t[i] != 's';
    forall i ensures !OccursAt(t, "secret-key", i) {
      if 0 <= i && i + 10 <= |t| { assert t[i..i + 10][0] == t[i]; }
    }
    NothingToReplace(t, "secret-key");
    assert ["secret", "secret-key"][1..] == ["secret-key"];
    assert ["secret-key"][1..] == [];
  }

  /** For secrets without brackets the condition is exact: some text leaks precisely when some secret is
      part of the word REDACTED. */
  lemma CompleteExactly(secrets: seq<string>)
    requires Usable(secrets) && LongestFirst(secrets) && NoDuplicates(secrets)
    requires forall i :: 0 <= i < |secrets| ==> BracketFree(secrets[i])
    ensures (exists s :: Leaks(secrets, s)) <==> (exists i :: 0 <= i < |secrets| && Contains("REDACTED", secrets[i]))
  {
    forall i | 0 <= i < |secrets| ensures Overlaps(secrets[i]) <==> Contains("REDACTED", secrets[i]) {
      BracketFreeOverlaps(secrets[i]);
    }
    if exists i :: 0 <= i < |secrets| && Contains("REDACTED", secrets[i]) {
      var k := LastOverlapping(secrets, |secrets|);
      forall j | k < j < |secrets| ensures !Contains(MARK, secrets[j]) {
        if Contains(MARK, secrets[j]) { ContainedOverlaps(secrets[j]); }
      }
      WholeSecret(secrets, k);
      InsideTheMark(secrets[k]);
      assert Leaks(secrets, secrets[k]);
    } else {
      forall s ensures !Leaks(secrets, s) { Complete(secrets, s); }
    }
  }

  lemma {:induction false} LastOverlapping(secrets: seq<string>, n: nat) returns (k: nat)
    requires n <= |secrets| && exists i :: 0 <= i < n && Overlaps(secrets[i])
    ensures k < n && Overlaps(secrets[k]) && forall j :: k < j < n ==> !Overlaps(secrets[j])
  {
    if Overlaps(secrets[n - 1]) { k := n - 1; } else { k := LastOverlapping(secrets, n - 1); }
  }

  lemma ContainedOverlaps(u: string)
    requires u != [] && Contains(MARK, u)
    ensures Overlaps(u)
  {
    var i :| OccursAt(MARK, u, i);
    forall k | 0 <= k < |u| ensures u[k] == MARK[i + k] {
      assert u[k] == MARK[i..i + |u|][k];
    }
    assert AgreesAt(u, i);
  }

  lemma InsideTheMark(u: string)
    requires Contains("REDACTED", u)
    ensures Contains(MARK, u)
  {
    var word := "REDACTED";
    var i :| OccursAt(word, u, i);
    assert MARK == "[" + word + "]";
    forall k | 0 <= k < |u| ensures u[k] == MARK[1 + i..1 + i + |u|][k] {
      assert u[k] == word[i..i + |u|][k];
    }
    assert OccursAt(MARK, u, 1 + i);
  }

  /** The eight letters themselves, registered as a secret, come back out. */
  lemma RedactedIsNotRedacted()
    ensures Redacted(["REDACTED"], "REDACTED") == MARK && Contains(MARK, "REDACTED")
  {
    WholeSecret(["REDACTED"], 0);
    assert MARK[1..9] == "REDACTED";
    assert OccursAt(MARK, "REDACTED", 1);
  }

  /* ---------- only secrets are hidden ---------- */

  /** A character of the text, or a secret that was replaced. */
  datatype Token = Lit(c: char) | Hidden(secret: string)

  ghost function Source(ts: seq<Token>): string {
    if ts == [] then [] else (match ts[0] case Lit(c) => [c] case Hidden(u) => u) + Source(ts[1..])
  }

  ghost function Shown(ts: seq<Token>): string {
    if ts == [] then [] else (match ts[0] case Lit(c) => [c] case Hidden(_) => MARK) + Shown(ts[1..])
  }

  ghost function Lits(s: string): seq<Token> { seq(|s|, i requires 0 <= i < |s| => Lit(s[i])) }

  ghost predicate HidesOnly(ts: seq<Token>, secrets: seq<string>) {
    forall i :: 0 <= i < |ts| && ts[i].Hidden? ==> ts[i].secret in secrets
  }

  lemma {:induction false} LitsFlatten(s: string, ts: seq<Token>)
    ensures Source(Lits(s) + ts) == s + Source(ts) && Shown(Lits(s) + ts) == s + Shown(ts)
  {
    hide Source, Shown;
    if s == [] {
      assert Lits(s) + ts == ts;
    } else {
      assert Lits(s)[1..] == Lits(s[1..]);
      HeadFirst(Lits(s), ts);
      LitsFlatten(s[1..], ts);
      LitInFront(s[0], Lits(s[1..]) + ts);
      HeadFirst(s, Source(ts));
      HeadFirst(s, Shown(ts));
    }
  }

  lemma HeadFirst<T>(s: seq<T>, t: seq<T>)
    requires s != []
    ensures s + t == [s[0]] + (s[1..] + t)
  {}

  lemma LitInFront(c: char, ts: seq<Token>)
    ensures Source([Lit(c)] + ts) == [c] + Source(ts) && Shown([Lit(c)] + ts) == [c] + Shown(ts)
  {}

  /** Replacement on tokens: a secret is only ever found in a run of plain characters. */
  ghost function Hide(ts: seq<Token>, u: string): seq<Token>
    requires u != []
    decreases |ts|
  {
    if ts == [] then []
    else if Lits(u) <= ts then [Hidden(u)] + Hide(ts[|u|..], u)
    else [ts[0]] + Hide(ts[1..], u)
  }

  lemma {:induction false} HideIsReplaceAll(ts: seq<Token>, u: string)
    requires u != [] && !Overlaps(u)
    ensures Shown(Hide(ts, u)) == ReplaceAll(Shown(ts), u, MARK) && Source(Hide(ts, u)) == Source(ts)
    decreases |ts|
  {
    if ts == [] {
    } else if Lits(u) <= ts {
      assert ts == Lits(u) + ts[|u|..];
      LitsFlatten(u, ts[|u|..]);
      HideIsReplaceAll(ts[|u|..], u);
      assert Shown(ts)[..|u|] == u && Shown(ts)[|u|..] == Shown(ts[|u|..]);
      assert ([Hidden(u)] + Hide(ts[|u|..], u))[1..] == Hide(ts[|u|..], u);
    } else {
      HideIsReplaceAll(ts[1..], u);
      assert ([ts[0]] + Hide(ts[1..], u))[1..] == Hide(ts[1..], u);
      if ts[0].Hidden? {
        MarksAreSkipped(u, Shown(ts[1..]));
      } else {
        var s := Shown(ts);
        if u <= s { OnlyLitsSpell(ts, u, u, 0); }
        assert s[1..] == Shown(ts[1..]);
        if |s| >= |u| { assert s[..|u|] != u; }
        assert |s| < |u| ==> |s[1..]| < |u|;
      }
    }
  }

  lemma MarksAreSkipped(u: string, rest: string)
    requires u != [] && !Overlaps(u)
    ensures ReplaceAll(MARK + rest, u, MARK) == MARK + ReplaceAll(rest, u, MARK)
  {
    forall i | 0 <= i < |MARK| ensures !OccursAt(MARK + rest, u, i) {
      assert MARK[0..] == MARK;
      if OccursAt(MARK + rest, u, i) { OccurrenceAgrees(0, rest, u, i); }
    }
    Skips(MARK, rest, u, MARK);
  }

  /** If a suffix `v` of `u` is what the tokens show first, they are that many plain characters. */
  lemma {:induction false} OnlyLitsSpell(ts: seq<Token>, v: string, u: string, n: nat)
    requires n <= |u| && v == u[n..] && !Overlaps(u) && v <= Shown(ts)
    ensures Lits(v) <= ts
    decreases |v|
  {
    if v != [] {
      if ts[0].Hidden? {
        forall k | 0 <= k < |u| && 0 <= k - n < |MARK| ensures u[k] == MARK[k - n] {
          assert u[k] == v[k - n] == Shown(ts)[k - n];
        }
        assert AgreesAt(u, 0 - n);
      } else {
        assert v[1..] <= Shown(ts[1..]) by { assert Shown(ts)[1..|v|] == v[1..]; }
        OnlyLitsSpell(ts[1..], v[1..], u, n + 1);
        assert Lits(v) == [Lit(v[0])] + Lits(v[1..]);
        assert ts == [ts[0]] + ts[1..];
      }
    }
  }

  lemma {:induction false} HideHidesOnly(ts: seq<Token>, u: string, secrets: seq<string>)
    requires u != [] && u in secrets && HidesOnly(ts, secrets)
    ensures HidesOnly(Hide(ts, u), secrets)
    decreases |ts|
  {
    if ts == [] {
    } else if Lits(u) <= ts {
      HideHidesOnly(ts[|u|..], u, secrets);
    } else {
      HideHidesOnly(ts[1..], u, secrets);
    }
  }

  /** What redaction did to the text: some disjoint occurrences of secrets became marks, and every other
      character is still there, in order. */
  lemma OnlySecretsAreHidden(secrets: seq<string>, s: string) returns (ts: seq<Token>)
    requires Usable(secrets) && AllClear(secrets)
    ensures Source(ts) == s && Shown(ts) == Redacted(secrets, s) && HidesOnly(ts, secrets)
  {
    LitsFlatten(s, []);
    assert Lits(s) + [] == Lits(s) && s + [] == s;
    ts := Lits(s);
    for i := 0 to |secrets|
      invariant Source(ts) == s && Redacted(secrets, s) == Redacted(secrets[i..], Shown(ts))
      invariant HidesOnly(ts, secrets)
    {
      HideIsReplaceAll(ts, secrets[i]);
      HideHidesOnly(ts, secrets[i], secrets);
      ts := Hide(ts, secrets[i]);
      assert secrets[i..][1..] == secrets[i + 1..];
    }
  }

  /** None of the values that count as secrets can touch a mark. */
  ghost predicate SecretsClear(values: seq<string>) { forall v :: Registered(values, v) ==> !Overlaps(v) }

  /** The redactor of an app, applied to a text: no secret value is left in it, and nothing else is gone. */
  method Scrub(values: seq<string>, s: string) returns (t: string)
    ensures SecretsClear(values) ==> forall v :: Registered(values, v) ==> !Contains(t, v)
    ensures SecretsClear(values) ==>
              exists ts: seq<Token> ::
                Source(ts) == s && Shown(ts) == t
                && forall i :: 0 <= i < |ts| && ts[i].Hidden? ==> Registered(values, ts[i].secret)
  {
    hide Redacted, Overlaps, Registered;
    var r := new Redactor(values);
    t := Redactor.Redact(r, s);
    if SecretsClear(values) {
      Complete(r.secrets, s);
      var ts := OnlySecretsAreHidden(r.secrets, s);
      forall v | Registered(values, v) ensures !Contains(t, v) {
        var i :| 0 <= i < |r.secrets| && r.secrets[i] == v;
      }
    }
  }
}

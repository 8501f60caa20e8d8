/** Parsing and matching of five-field cron expressions. */
module Cron {
  import opened Wrappers
  import opened Strings

  datatype FieldSpec = FieldSpec(min: int, max: int)

  ghost predicate ValidSpec(spec: FieldSpec) { 0 <= spec.min <= spec.max <= 59 }

  const FIELD_SPECS: seq<FieldSpec> :=
    [FieldSpec(0, 59), FieldSpec(0, 23), FieldSpec(1, 31), FieldSpec(1, 12), FieldSpec(0, 7)]

  datatype CronError =
    | WrongFieldCount | EmptyTerm | BadStep | StepNotPositive
    | BadRangeStart | BadRangeEnd | Reversed | BadValue | OutOfRange

  /* ---------- numbers ---------- */

  const MAX_INT64 := 0x7FFF_FFFF_FFFF_FFFF

  predicate Digit(c: char) { '0' <= c <= '9' }

  function DigitsValue(s: string): (v: Option<int>)
    ensures v.Some? <==> s != [] && forall i :: 0 <= i < |s| ==> Digit(s[i])
    ensures v.Some? ==> v.value >= 0
  {
    if s == [] then None
    else
      var init, c := s[..|s| - 1], s[|s| - 1];
      assert s == init + [c];
      if !Digit(c) then None
      else if init == [] then Some(c as int - '0' as int)
      else match DigitsValue(init)
           case None => None
           case Some(v) => Some(10 * v + (c as int - '0' as int))
  }

  /** strconv.Atoi: an optional sign, decimal digits, within 64 bits. */
  function Atoi(s: string): (v: Option<int>) {
    var signed := s != [] && (s[0] == '-' || s[0] == '+');
    var digits := DigitsValue(if signed then s[1..] else s);
    if digits.None? then None
    else
      var v := if signed && s[0] == '-' then -digits.value else digits.value;
      if -MAX_INT64 - 1 <= v <= MAX_INT64 then Some(v) else None
  }

  /** Decimal digits of a number. */
  function Dec(n: nat): (s: string)
    ensures s != [] && forall i :: 0 <= i < |s| ==> Digit(s[i])
  {
    if n < 10 then ['0' + n as char] else Dec(n / 10) + ['0' + (n % 10) as char]
  }

  lemma {:induction false} DecValue(n: nat)
    ensures DigitsValue(Dec(n)) == Some(n)
  {
    if n >= 10 {
      DecValue(n / 10);
      var s := Dec(n);
      assert s[..|s| - 1] == Dec(n / 10);
    }
  }

  /** A number is read in decimal, with an optional sign, if it fits in 64 bits. */
  lemma AtoiExactly(digits: string, n: int)
    requires DigitsValue(digits) == Some(n)
    ensures Atoi(digits) == if n <= 9_223_372_036_854_775_807 then Some(n) else None
    ensures Atoi("+" + digits) == if n <= 9_223_372_036_854_775_807 then Some(n) else None
    ensures Atoi("-" + digits) == if n <= 9_223_372_036_854_775_808 then Some(-n) else None
  {
    hide DigitsValue;
    assert Digit(digits[0]);
    assert ("+" + digits)[1..] == digits && ("-" + digits)[1..] == digits;
  }

  lemma AtoiDec(n: nat)
    requires n <= MAX_INT64
    ensures Atoi(Dec(n)) == Some(n)
  {
    DecValue(n);
    assert Digit(Dec(n)[0]);
  }

  /* ---------- terms ---------- */

  /** lo, lo + step, lo + 2 step, … up to hi; empty when lo > hi. */
  datatype Progression = Progression(lo: int, hi: int, step: int)

  predicate OnStep(distance: int, step: int)
    requires step > 0
  {
    distance % step == 0
  }

  predicate IsMember(p: Progression, v: int)
    requires p.step > 0
  {
    p.lo <= v <= p.hi && OnStep(v - p.lo, p.step)
  }

  ghost function Members(p: Progression): set<int>
    requires p.step > 0
  {
    set v | p.lo <= v <= p.hi && IsMember(p, v)
  }

  function Before(s: string, i: int): string
    requires -1 <= i <= |s|
  {
    if i == -1 then s else s[..i]
  }

  /** The progression a term selects. */
  function TermRange(term: string, spec: FieldSpec): (r: Result<Progression, CronError>)
    ensures r.Ok? ==> r.value.step > 0 && spec.min <= r.value.lo && r.value.hi <= spec.max
  {
    var slash := IndexByte(term, '/');
    var rangePart := Before(term, slash);
    var step := if slash == -1 then Some(1) else Atoi(term[slash + 1..]);
    if step.None? then Err(BadStep)
    else if step.value <= 0 then Err(StepNotPositive)
    else
      var bounds := Bounds(rangePart, slash != -1, spec);
      if bounds.Err? then Err(bounds.error)
      else if bounds.value.0 < spec.min || bounds.value.1 > spec.max then Err(OutOfRange)
      else Ok(Progression(bounds.value.0, bounds.value.1, step.value))
  }

  function Bounds(rangePart: string, stepped: bool, spec: FieldSpec): Result<(int, int), CronError> {
    if rangePart == "*" then Ok((spec.min, spec.max))
    else
      var dash := IndexByte(rangePart, '-');
      if dash != -1 then
        var lo, hi := Atoi(rangePart[..dash]), Atoi(rangePart[dash + 1..]);
        if lo.None? then Err(BadRangeStart)
        else if hi.None? then Err(BadRangeEnd)
        else if lo.value > hi.value then Err(Reversed)
        else Ok((lo.value, hi.value))
      else
        match Atoi(rangePart)
        case None => Err(BadValue)
        case Some(v) => Ok((v, if stepped then spec.max else v))
  }

  /** The members of `p` below `v`. */
  ghost function MembersBelow(p: Progression, v: int): set<int>
    requires p.step > 0
  {
    set u | p.lo <= u <= p.hi && u < v && IsMember(p, u)
  }

  /** parseTerm: on success the values of the term's progression are added to the set. */
  method ParseTerm(term: string, spec: FieldSpec, before: set<int>) returns (r: Result<set<int>, CronError>)
    ensures r.Err? <==> TermRange(term, spec).Err?
    ensures r.Err? ==> r.error == TermRange(term, spec).error
    ensures r.Ok? ==> r.value == before + Members(TermRange(term, spec).value)
  {
    hide TermRange, OnStep;
    var range := TermRange(term, spec);
    if range.Err? { return Err(range.error); }
    var p := range.value;
    var selected, v := before, p.lo;
    NoRemainder(0, p.step);
    while v <= p.hi
      invariant p.lo <= v && OnStep(v - p.lo, p.step)
      invariant selected == before + MembersBelow(p, v)
      decreases p.hi - v
    {
      NextMember(p, v);
      selected := selected + {v};
      v := v + p.step;
    }
    assert MembersBelow(p, v) == Members(p);
    return Ok(selected);
  }

  /** One step further there is exactly one more member. */
  lemma NextMember(p: Progression, v: int)
    requires p.step > 0 && p.lo <= v <= p.hi && OnStep(v - p.lo, p.step)
    ensures OnStep(v + p.step - p.lo, p.step)
    ensures MembersBelow(p, v + p.step) == MembersBelow(p, v) + {v}
  {
    hide OnStep;
    NoneBetween(v - p.lo, p.step, p.step);
    forall u | v < u < v + p.step ensures !IsMember(p, u) {
      NoneBetween(v - p.lo, u - v, p.step);
    }
  }

  lemma NoneBetween(distance: int, r: int, step: int)
    requires step > 0 && OnStep(distance, step) && 0 < r <= step
    ensures OnStep(distance + r, step) <==> r == step
  {
    var q, q' := distance / step, (distance + r) / step;
    assert distance == step * q;
    assert distance + r == step * q' + (distance + r) % step;
    if r == step {
      assert distance + r == step * (q + 1);
      NoRemainder(q + 1, step);
    } else if OnStep(distance + r, step) {
      assert step * (q' - q) == r;
      NotWithinOneStep(step, q' - q);
    }
  }

  lemma NoRemainder(k: int, step: int)
    requires step > 0
    ensures OnStep(step * k, step) && OnStep(0, step)
  {}

  lemma NotWithinOneStep(step: int, k: int)
    requires step > 0
    ensures step * k <= 0 || step * k >= step
  {}

  /* ---------- fields ---------- */

  ghost predicate TermValid(term: string, spec: FieldSpec) { term != "" && TermRange(term, spec).Ok? }

  ghost predicate TermSelects(term: string, spec: FieldSpec, v: int) {
    TermRange(term, spec).Ok? && IsMember(TermRange(term, spec).value, v)
  }

  ghost predicate AllValid(terms: seq<string>, spec: FieldSpec) {
    forall i :: 0 <= i < |terms| ==> TermValid(terms[i], spec)
  }

  ghost predicate SomeSelects(terms: seq<string>, spec: FieldSpec, v: int) {
    exists i :: 0 <= i < |terms| && TermSelects(terms[i], spec, v)
  }

  /** Every comma-separated term is valid. */
  ghost predicate FieldValid(field: string, spec: FieldSpec) { AllValid(SplitByte(field, ','), spec) }

  /** The union of the terms' progressions. */
  ghost predicate Selects(field: string, spec: FieldSpec, v: int) { SomeSelects(SplitByte(field, ','), spec, v) }

  /** `s` is exactly the union of the terms' progressions, inside the field's range. */
  ghost predicate UnionOf(terms: seq<string>, spec: FieldSpec, s: set<int>) {
    forall v :: (v in s <==> SomeSelects(terms, spec, v)) && (v in s ==> spec.min <= v <= spec.max)
  }

  ghost predicate FieldIs(field: string, spec: FieldSpec, s: set<int>) { UnionOf(SplitByte(field, ','), spec, s) }

  lemma AddTerm(terms: seq<string>, term: string, spec: FieldSpec, s: set<int>)
    requires UnionOf(terms, spec, s) && TermRange(term, spec).Ok?
    ensures UnionOf(terms + [term], spec, s + Members(TermRange(term, spec).value))
  {
    hide TermRange, OnStep;
    var all := terms + [term];
    forall v ensures SomeSelects(all, spec, v) <==> SomeSelects(terms, spec, v) || TermSelects(term, spec, v) {
      if SomeSelects(terms, spec, v) {
        var i :| 0 <= i < |terms| && TermSelects(terms[i], spec, v);
        assert all[i] == terms[i];
      }
      assert all[|terms|] == term;
    }
  }

  /** Term `i` is the first invalid one, and this is what is wrong with it. */
  ghost predicate FirstBad(terms: seq<string>, spec: FieldSpec, i: int, e: CronError) {
    && 0 <= i < |terms| && AllValid(terms[..i], spec) && !TermValid(terms[i], spec)
    && e == if terms[i] == "" then EmptyTerm else TermRange(terms[i], spec).error
  }

  lemma NothingSelected(spec: FieldSpec)
    ensures UnionOf([], spec, {})
  {}

  /** parseField: accepts exactly the fields with valid terms and returns exactly their union, inside the range. */
  method ParseField(field: string, spec: FieldSpec) returns (r: Result<set<int>, CronError>)
    ensures r.Ok? <==> FieldValid(field, spec)
    ensures r.Ok? ==> FieldIs(field, spec, r.value)
    ensures r.Err? ==> exists i :: FirstBad(SplitByte(field, ','), spec, i, r.error)
  {
    hide TermRange, Members, SplitByte, SomeSelects;
    var parts := SplitByte(field, ',');
    var selected: set<int> := {};
    NothingSelected(spec);
    for i := 0 to |parts|
      invariant AllValid(parts[..i], spec) && UnionOf(parts[..i], spec, selected)
    {
      assert parts[..i + 1] == parts[..i] + [parts[i]];
      if parts[i] == "" {
        assert !TermValid(parts[i], spec) && FirstBad(parts, spec, i, EmptyTerm);
        return Err(EmptyTerm);
      }
      var added := ParseTerm(parts[i], spec, selected);
      if added.Err? {
        assert !TermValid(parts[i], spec) && FirstBad(parts, spec, i, added.error);
        return added;
      }
      AddTerm(parts[..i], parts[i], spec, selected);
      selected := added.value;
    }
    assert parts[..|parts|] == parts;
    return Ok(selected);
  }

  /* ---------- whole expressions ---------- */

  function WordEnd(s: string): (n: nat)
    ensures n <= |s|
  {
    if s == [] || Space(s[0]) then 0 else 1 + WordEnd(s[1..])
  }

  /** strings.Fields. */
  function Fields(s: string): seq<string>
    decreases |s|
  {
    if s == [] then []
    else if Space(s[0]) then Fields(s[1..])
    else [s[..WordEnd(s)]] + Fields(s[WordEnd(s)..])
  }

  ghost predicate Blank(s: string) { forall i :: 0 <= i < |s| ==> Space(s[i]) }

  ghost predicate Word(s: string) { s != "" && forall i :: 0 <= i < |s| ==> !Space(s[i]) }

  /** The words in order, with white space between any two and possibly around them. */
  ghost function Spaced(words: seq<string>, gaps: seq<string>): string
    requires |gaps| == |words| + 1
  {
    if words == [] then gaps[0] else gaps[0] + (words[0] + Spaced(words[1..], gaps[1..]))
  }

  lemma {:induction false} FieldsAfterGap(gap: string, rest: string)
    requires Blank(gap)
    ensures Fields(gap + rest) == Fields(rest)
  {
    if gap == "" {
      assert gap + rest == rest;
    } else {
      assert (gap + rest)[1..] == gap[1..] + rest;
      FieldsAfterGap(gap[1..], rest);
    }
  }

  lemma {:induction false} WordEndsAtGap(w: string, rest: string)
    requires (forall i :: 0 <= i < |w| ==> !Space(w[i])) && (rest == "" || Space(rest[0]))
    ensures WordEnd(w + rest) == |w|
  {
    if w == "" {
      assert w + rest == rest;
    } else {
      assert (w + rest)[1..] == w[1..] + rest;
      WordEndsAtGap(w[1..], rest);
    }
  }

  lemma FieldsAfterWord(w: string, rest: string)
    requires Word(w) && (rest == "" || Space(rest[0]))
    ensures Fields(w + rest) == [w] + Fields(rest)
  {
    WordEndsAtGap(w, rest);
    assert (w + rest)[..|w|] == w && (w + rest)[|w|..] == rest;
  }

  /** A text is read as exactly the words that are written in it, in order. */
  lemma {:induction false} FieldsReadBack(words: seq<string>, gaps: seq<string>)
    requires |gaps| == |words| + 1
    requires forall i :: 0 <= i < |words| ==> Word(words[i])
    requires forall i :: 0 <= i < |gaps| ==> Blank(gaps[i]) && (0 < i < |words| ==> gaps[i] != "")
    ensures Fields(Spaced(words, gaps)) == words
  {
    hide Fields, Space;
    if words == [] {
      FieldsAfterGap(gaps[0], "");
      assert gaps[0] + "" == gaps[0];
      NoFields();
    } else {
      var rest := Spaced(words[1..], gaps[1..]);
      FieldsAfterGap(gaps[0], words[0] + rest);
      if |words| > 1 {
        assert rest[0] == gaps[1][0];
      }
      FieldsAfterWord(words[0], rest);
      FieldsReadBack(words[1..], gaps[1..]);
    }
  }

  lemma NoFields()
    ensures Fields("") == []
  {}

  /** Five words with a space between any two are read as these five fields, in order. */
  lemma FiveFields(a: string, b: string, c: string, d: string, e: string)
    requires Word(a) && Word(b) && Word(c) && Word(d) && Word(e)
    ensures Fields(a + " " + b + " " + c + " " + d + " " + e) == [a, b, c, d, e]
  {
    hide Fields, Spaced;
    var words, gaps := [a, b, c, d, e], ["", " ", " ", " ", " ", ""];
    FieldsReadBack(words, gaps);
    SpacedFive(a, b, c, d, e);
  }

  lemma SpacedNext(gap: string, w: string, words: seq<string>, gaps: seq<string>)
    requires |gaps| == |words| + 1
    ensures Spaced([w] + words, [gap] + gaps) == gap + (w + Spaced(words, gaps))
  {
    assert ([w] + words)[1..] == words && ([gap] + gaps)[1..] == gaps;
  }

  lemma SpacedFive(a: string, b: string, c: string, d: string, e: string)
    ensures Spaced([a, b, c, d, e], ["", " ", " ", " ", " ", ""]) == a + " " + b + " " + c + " " + d + " " + e
  {
    SpacedNext(" ", e, [], [""]);
    SpacedNext(" ", d, [e], [" ", ""]);
    SpacedNext(" ", c, [d, e], [" ", " ", ""]);
    SpacedNext(" ", b, [c, d, e], [" ", " ", " ", ""]);
    SpacedNext("", a, [b, c, d, e], [" ", " ", " ", " ", ""]);
    hide Spaced;
    assert [d] + [e] == [d, e] && [c] + [d, e] == [c, d, e] && [b] + [c, d, e] == [b, c, d, e];
    assert [a] + [b, c, d, e] == [a, b, c, d, e] && [e] + [] == [e];
    assert [" "] + [""] == [" ", ""] && [" "] + [" ", ""] == [" ", " ", ""];
    assert [" "] + [" ", " ", ""] == [" ", " ", " ", ""];
    assert [" "] + [" ", " ", " ", ""] == [" ", " ", " ", " ", ""];
    assert [""] + [" ", " ", " ", " ", ""] == ["", " ", " ", " ", " ", ""];
  }

  datatype Schedule = Schedule(minute: set<int>, hour: set<int>, dom: set<int>, month: set<int>, dow: set<int>)

  /** Value `v` is selected by the i-th field; for the day of week 7 counts as 0. */
  ghost predicate Denotes(fields: seq<string>, i: nat, v: int)
    requires i < |fields| && i < 5
  {
    if i == 4 then
      && 0 <= v <= 6
      && (Selects(fields[4], FIELD_SPECS[4], v) || (v == 0 && Selects(fields[4], FIELD_SPECS[4], 7)))
    else Selects(fields[i], FIELD_SPECS[i], v)
  }

  /** Parse: accepts exactly five valid fields, and the schedule is their denotation. */
  method Parse(expr: string) returns (r: Result<Schedule, CronError>)
    ensures r.Ok? <==> |Fields(expr)| == 5 && forall i :: 0 <= i < 5 ==> FieldValid(Fields(expr)[i], FIELD_SPECS[i])
    ensures r.Ok? ==> Denoted(Fields(expr), r.value)
  {
    hide Fields, SplitByte, AllValid, UnionOf, SomeSelects;
    var fields := Fields(expr);
    if |fields| != 5 { return Err(WrongFieldCount); }
    var sets: seq<set<int>> := [];
    for i := 0 to 5
      invariant |sets| == i
      invariant forall j :: 0 <= j < i ==>
                  FieldValid(fields[j], FIELD_SPECS[j]) && FieldIs(fields[j], FIELD_SPECS[j], sets[j])
    {
      var parsed := ParseField(fields[i], FIELD_SPECS[i]);
      if parsed.Err? { return Err(parsed.error); }
      sets := sets + [parsed.value];
    }
    var dow := sets[4];
    if 7 in dow { dow := dow - {7} + {0}; }
    FieldDenotes(fields, sets);
    return Ok(Schedule(sets[0], sets[1], sets[2], sets[3], dow));
  }

  lemma FieldDenotes(fields: seq<string>, sets: seq<set<int>>)
    requires |fields| == 5 && |sets| == 5
    requires forall j :: 0 <= j < 5 ==> FieldIs(fields[j], FIELD_SPECS[j], sets[j])
    ensures forall j, v :: 0 <= j < 4 ==> (v in sets[j] <==> Denotes(fields, j, v))
    ensures forall v :: v in (if 7 in sets[4] then sets[4] - {7} + {0} else sets[4]) <==> Denotes(fields, 4, v)
    ensures forall j, v :: 0 <= j < 5 && v in sets[j] ==> FIELD_SPECS[j].min <= v <= FIELD_SPECS[j].max
  {}

  /* ---------- what the syntax means ---------- */

  /** "*" means "min-max". */
  lemma StarIsFullRange(spec: FieldSpec)
    requires ValidSpec(spec)
    ensures TermRange("*", spec) == Ok(Progression(spec.min, spec.max, 1))
    ensures TermRange(Dec(spec.min) + "-" + Dec(spec.max), spec) == TermRange("*", spec)
  {
    var range := Dec(spec.min) + "-" + Dec(spec.max);
    RangeBounds(Dec(spec.min), Dec(spec.max), spec, false);
    AtoiDec(spec.min);
    AtoiDec(spec.max);
    assert '/' !in range by { NoDelimiters(spec.min); NoDelimiters(spec.max); }
    assert '/' !in "*";
  }

  lemma NoDelimiters(n: nat)
    ensures '/' !in Dec(n) && '-' !in Dec(n) && ',' !in Dec(n) && Dec(n) != "*"
  {}

  lemma RangeBounds(a: string, b: string, spec: FieldSpec, stepped: bool)
    requires '-' !in a
    ensures var r := a + "-" + b;
            IndexByte(r, '-') == |a| && r[..|a|] == a && r[|a| + 1..] == b && r != "*"
  {}

  /** "N/S" means "N-max/S" — except that a start beyond the maximum is silently accepted and selects
      nothing, where the spelled-out range is an error. */
  lemma StepFromValue(n: string, s: string, k: int, spec: FieldSpec)
    requires ValidSpec(spec) && '/' !in n && '-' !in n && n != "*" && Atoi(n) == Some(k)
    ensures var short, long := TermRange(n + "/" + s, spec), TermRange(n + "-" + Dec(spec.max) + "/" + s, spec);
            var goodStep := Atoi(s).Some? && Atoi(s).value > 0;
            && (short == long <==> !goodStep || k <= spec.max)
            && (goodStep && k > spec.max ==> short.Ok? && Members(short.value) == {} && long == Err(Reversed))
  {
    hide Atoi, Dec, IndexByte;
    var range := n + "-" + Dec(spec.max);
    CutAtStep(n, s);
    NoDelimiters(spec.max);
    assert '/' !in range;
    CutAtStep(range, s);
    BoundsOfValue(n, k, spec);
  }

  lemma BoundsOfValue(n: string, k: int, spec: FieldSpec)
    requires ValidSpec(spec) && '-' !in n && n != "*" && Atoi(n) == Some(k)
    ensures Bounds(n, true, spec) == Ok((k, spec.max))
    ensures Bounds(n + "-" + Dec(spec.max), true, spec) == if k > spec.max then Err(Reversed) else Ok((k, spec.max))
  {
    hide Atoi, Dec;
    RangeBounds(n, Dec(spec.max), spec, true);
    AtoiDec(spec.max);
  }

  lemma CutAtStep(a: string, s: string)
    requires '/' !in a
    ensures var t := a + "/" + s; IndexByte(t, '/') == |a| && t[..|a|] == a && t[|a| + 1..] == s
  {}

  /** A minute field that selects no minute is accepted. */
  lemma OutOfRangeStartAccepted()
    ensures TermRange("99/5", FIELD_SPECS[0]).Ok? && Members(TermRange("99/5", FIELD_SPECS[0]).value) == {}
  {}

  /** A valid term selects nothing exactly when it starts beyond the field's maximum. */
  lemma EmptyExactlyBeyondMaximum(term: string, spec: FieldSpec)
    requires ValidSpec(spec) && TermRange(term, spec).Ok?
    ensures Members(TermRange(term, spec).value) == {} <==> TermRange(term, spec).value.lo > spec.max
  {
    hide Atoi, IndexByte, OnStep;
    var p := TermRange(term, spec).value;
    NoRemainder(0, p.step);
    if p.lo <= p.hi { assert IsMember(p, p.lo) && p.lo in Members(p); }
  }

  /** "A-B/S" is accepted exactly when its three parts are numbers, the step is positive and
      min <= A <= B <= max, and then it means A, A+S, A+2S, … up to B. */
  lemma RangeTermExactly(a: string, b: string, s: string, spec: FieldSpec)
    requires '/' !in a && '/' !in b && '-' !in a
    ensures var r := TermRange(a + "-" + b + "/" + s, spec);
            && (r.Ok? <==> Atoi(a).Some? && Atoi(b).Some? && Atoi(s).Some? && Atoi(s).value > 0
                           && spec.min <= Atoi(a).value <= Atoi(b).value <= spec.max)
            && (r.Ok? ==> r.value == Progression(Atoi(a).value, Atoi(b).value, Atoi(s).value))
  {
    hide Atoi, IndexByte;
    var range := a + "-" + b;
    assert '/' !in range;
    CutAtStep(range, s);
    RangeBounds(a, b, spec, true);
  }

  /** A progression inside the field's range can be written down and is read back as it was. */
  lemma RangeRoundTrip(p: Progression, spec: FieldSpec)
    requires ValidSpec(spec) && spec.min <= p.lo <= p.hi <= spec.max && 1 <= p.step <= MAX_INT64
    ensures TermRange(Dec(p.lo) + "-" + Dec(p.hi) + "/" + Dec(p.step), spec) == Ok(p)
  {
    hide Atoi, Dec, TermRange;
    NoDelimiters(p.lo);
    NoDelimiters(p.hi);
    RangeTermExactly(Dec(p.lo), Dec(p.hi), Dec(p.step), spec);
    AtoiDec(p.lo);
    AtoiDec(p.hi);
    AtoiDec(p.step);
  }

  lemma NumberIsItself(n: nat, spec: FieldSpec)
    requires ValidSpec(spec) && spec.min <= n <= spec.max
    ensures TermValid(Dec(n), spec) && forall v :: TermSelects(Dec(n), spec, v) <==> v == n
  {
    hide Atoi, Dec, IndexByte, OnStep;
    NoDelimiters(n);
    AtoiDec(n);
    assert TermRange(Dec(n), spec) == Ok(Progression(n, n, 1));
    NoRemainder(0, 1);
  }

  /** A number alone is accepted exactly when it is a minute, an hour, a day, a month or a day of the week. */
  lemma NumberExactly(i: nat, n: nat)
    requires i < 5 && n <= MAX_INT64
    ensures TermRange(Dec(n), FIELD_SPECS[i]).Ok? <==>
            match i
            case 0 => n <= 59
            case 1 => n <= 23
            case 2 => 1 <= n <= 31
            case 3 => 1 <= n <= 12
            case _ => n <= 7
  {
    hide Atoi, Dec, IndexByte;
    NoDelimiters(n);
    AtoiDec(n);
  }

  ghost function Numbers(ns: seq<nat>): seq<string> { seq(|ns|, i requires 0 <= i < |ns| => Dec(ns[i])) }

  /** Every nonempty set of values in range can be selected: write it as a list. */
  lemma ListSelectsItsNumbers(ns: seq<nat>, spec: FieldSpec)
    requires ValidSpec(spec) && ns != [] && forall i :: 0 <= i < |ns| ==> spec.min <= ns[i] <= spec.max
    ensures var field := JoinByte(Numbers(ns), ',');
            FieldValid(field, spec) && forall v :: Selects(field, spec, v) <==> v in ns
  {
    hide Dec, SplitByte, JoinByte, TermValid, TermSelects;
    var terms := Numbers(ns);
    forall i | 0 <= i < |ns|
      ensures ',' !in terms[i] && TermValid(terms[i], spec)
      ensures forall v :: TermSelects(terms[i], spec, v) <==> v == ns[i]
    {
      NoDelimiters(ns[i]);
      NumberIsItself(ns[i], spec);
    }
    SplitJoin(terms, ',');
    forall v ensures SomeSelects(terms, spec, v) <==> v in ns {
      if v in ns {
        var i :| 0 <= i < |ns| && ns[i] == v;
        assert TermSelects(terms[i], spec, v);
      }
    }
  }

  /* ---------- matching ---------- */

  ghost predicate Within(lo: int, v: int, hi: int) { lo <= v <= hi }

  ghost function Full(lo: int, hi: int): set<int> { set v | lo <= v <= hi && Within(lo, v, hi) }

  ghost predicate InRanges(s: Schedule) {
    && s.minute <= Full(0, 59) && s.hour <= Full(0, 23)
    && s.dom <= Full(1, 31) && s.month <= Full(1, 12) && s.dow <= Full(0, 6)
  }

  /** A UTC time, truncated to the minute. */
  datatype Time = Time(minute: int, hour: int, day: int, month: int, weekday: int)

  /** Longest length of a month. */
  ghost function DaysIn(month: int): int {
    if month == 2 then 29 else if month in {4, 6, 9, 11} then 30 else 31
  }

  /** Any date of some year, on any day of the week. */
  ghost predicate ValidTime(t: Time) {
    && 0 <= t.minute <= 59 && 0 <= t.hour <= 23
    && 1 <= t.month <= 12 && 1 <= t.day <= DaysIn(t.month) && 0 <= t.weekday <= 6
  }

  predicate Matches(s: Schedule, t: Time) {
    if t.minute !in s.minute || t.hour !in s.hour || t.month !in s.month then false
    else
      var domRestricted, dowRestricted := |s.dom| < 31, |s.dow| < 7;
      if domRestricted && dowRestricted then t.day in s.dom || t.weekday in s.dow
      else t.day in s.dom && t.weekday in s.dow
  }

  lemma {:induction false} FullSize(lo: int, hi: int)
    requires lo <= hi + 1
    ensures |Full(lo, hi)| == hi - lo + 1
    decreases hi - lo + 1
  {
    if lo <= hi {
      FullSize(lo, hi - 1);
      assert Full(lo, hi) == Full(lo, hi - 1) + {hi};
    }
  }

  lemma SmallerIffProper(s: set<int>, lo: int, hi: int)
    requires lo <= hi + 1 && s <= Full(lo, hi)
    ensures |s| < hi - lo + 1 <==> s != Full(lo, hi)
  {
    FullSize(lo, hi);
    assert Full(lo, hi) == s + (Full(lo, hi) - s);
    if s != Full(lo, hi) {
      var v :| v in Full(lo, hi) && v !in s;
      assert v in Full(lo, hi) - s;
    }
  }

  /** Day of month and day of week are alternatives when each leaves a day out; otherwise the one that
      selects every day drops out. */
  lemma MatchesRule(s: Schedule, t: Time)
    requires InRanges(s) && ValidTime(t)
    ensures Matches(s, t) <==>
              && t.minute in s.minute && t.hour in s.hour && t.month in s.month
              && (if s.dom == Full(1, 31) then t.weekday in s.dow
                  else if s.dow == Full(0, 6) then t.day in s.dom
                  else t.day in s.dom || t.weekday in s.dow)
  {
    SmallerIffProper(s.dom, 1, 31);
    SmallerIffProper(s.dow, 0, 6);
  }

  /* ---------- schedules that are never due ---------- */

  ghost predicate NeverDue(s: Schedule) { forall t :: ValidTime(t) ==> !Matches(s, t) }

  /** Some selected day of the month exists in some selected month. */
  ghost predicate DateExists(s: Schedule) { exists m, d :: m in s.month && d in s.dom && d <= DaysIn(m) }

  ghost predicate DayExists(s: Schedule) {
    if s.dom == Full(1, 31) then s.dow != {}
    else if s.dow == Full(0, 6) then DateExists(s)
    else DateExists(s) || s.dow != {}
  }

  /** A schedule is never due exactly when it selects no minute, no hour, no month or no day. */
  lemma NeverDueExactly(s: Schedule)
    requires InRanges(s)
    ensures NeverDue(s) <==> s.minute == {} || s.hour == {} || s.month == {} || !DayExists(s)
  {
    hide Matches, DaysIn, Full;
    InRangesMeans(s);
    if s.minute != {} && s.hour != {} && s.month != {} && DayExists(s) {
      var minute := PickOne(s.minute);
      var hour := PickOne(s.hour);
      var t: Time;
      if s.dow != {} && (s.dom == Full(1, 31) || s.dow != Full(0, 6)) {
        var month := PickOne(s.month);
        var weekday := PickOne(s.dow);
        t := Time(minute, hour, 1, month, weekday);
        FirstIsValid(t.month);
      } else {
        var m, d :| m in s.month && d in s.dom && d <= DaysIn(m);
        t := Time(minute, hour, d, m, 0);
      }
      assert ValidTime(t);
      MatchesRule(s, t);
    }
    if t :| ValidTime(t) && Matches(s, t) { MatchesRule(s, t); }
  }

  lemma PickOne(s: set<int>) returns (x: int)
    requires s != {}
    ensures x in s
  {
    assert (forall v :: v !in s) ==> s == {};
    x :| x in s;
  }

  lemma InRangesMeans(s: Schedule)
    requires InRanges(s)
    ensures (forall v :: v in s.minute ==> 0 <= v <= 59) && (forall v :: v in s.hour ==> 0 <= v <= 23)
    ensures (forall v :: v in s.dom ==> 1 <= v <= 31) && (forall v :: v in s.month ==> 1 <= v <= 12)
    ensures forall v :: v in s.dow ==> 0 <= v <= 6
  {}

  lemma FirstIsValid(month: int)
    ensures 1 <= DaysIn(month)
  {}

  /** Every term of the field starts beyond the field's maximum. */
  ghost predicate AllBeyond(field: string, spec: FieldSpec) {
    var terms := SplitByte(field, ',');
    forall i :: 0 <= i < |terms| ==> TermRange(terms[i], spec).Ok? && TermRange(terms[i], spec).value.lo > spec.max
  }

  /** An accepted field selects nothing exactly when all its terms start beyond its maximum. */
  lemma EmptyFieldExactly(field: string, spec: FieldSpec)
    requires ValidSpec(spec) && FieldValid(field, spec)
    ensures (forall v :: !Selects(field, spec, v)) <==> AllBeyond(field, spec)
  {
    hide TermRange, SplitByte, OnStep;
    var terms := SplitByte(field, ',');
    forall i | 0 <= i < |terms|
      ensures (forall v :: !TermSelects(terms[i], spec, v)) <==> TermRange(terms[i], spec).value.lo > spec.max
    {
      EmptyExactlyBeyondMaximum(terms[i], spec);
      var p := TermRange(terms[i], spec).value;
      if v :| v in Members(p) { assert TermSelects(terms[i], spec, v); }
      if v :| TermSelects(terms[i], spec, v) { assert v in Members(p); }
    }
    if forall v :: !Selects(field, spec, v) {
      forall i, v | 0 <= i < |terms| ensures !TermSelects(terms[i], spec, v) {
        assert !Selects(field, spec, v);
      }
    }
  }

  /** The schedule that Parse returns for these five fields. */
  ghost predicate Denoted(fields: seq<string>, s: Schedule)
    requires |fields| == 5
  {
    && InRanges(s) && (forall i :: 0 <= i < 5 ==> FieldValid(fields[i], FIELD_SPECS[i]))
    && (forall v :: v in s.minute <==> Denotes(fields, 0, v)) && (forall v :: v in s.hour <==> Denotes(fields, 1, v))
    && (forall v :: v in s.dom <==> Denotes(fields, 2, v)) && (forall v :: v in s.month <==> Denotes(fields, 3, v))
    && (forall v :: v in s.dow <==> Denotes(fields, 4, v))
  }

  /** In terms of the expression: an accepted one is never due exactly when all terms of its minute, hour or
      month start beyond the maximum, or it selects no day. */
  lemma NeverDueFromText(fields: seq<string>, s: Schedule)
    requires |fields| == 5 && Denoted(fields, s)
    ensures NeverDue(s) <==>
            || AllBeyond(fields[0], FIELD_SPECS[0]) || AllBeyond(fields[1], FIELD_SPECS[1])
            || AllBeyond(fields[3], FIELD_SPECS[3]) || !DayExists(s)
    ensures s.dom == {} <==> AllBeyond(fields[2], FIELD_SPECS[2])
    ensures s.dow == {} <==> AllBeyond(fields[4], FIELD_SPECS[4])
  {
    hide FieldValid, Selects, AllBeyond, NeverDue, DayExists;
    NeverDueExactly(s);
    EmptyFieldExactly(fields[0], FIELD_SPECS[0]);
    EmptyFieldExactly(fields[1], FIELD_SPECS[1]);
    EmptyFieldExactly(fields[2], FIELD_SPECS[2]);
    EmptyFieldExactly(fields[3], FIELD_SPECS[3]);
    EmptyFieldExactly(fields[4], FIELD_SPECS[4]);
    assert forall v :: v in s.minute <==> Selects(fields[0], FIELD_SPECS[0], v);
    assert forall v :: v in s.hour <==> Selects(fields[1], FIELD_SPECS[1], v);
    assert forall v :: v in s.dom <==> Selects(fields[2], FIELD_SPECS[2], v);
    assert forall v :: v in s.month <==> Selects(fields[3], FIELD_SPECS[3], v);
    NoWeekday(fields, s);
  }

  lemma NoWeekday(fields: seq<string>, s: Schedule)
    requires |fields| == 5 && Denoted(fields, s)
    ensures s.dow == {} <==> forall v :: !Selects(fields[4], FIELD_SPECS[4], v)
  {
    hide TermRange, SplitByte;
    if v :| Selects(fields[4], FIELD_SPECS[4], v) {
      assert Denotes(fields, 4, if v == 7 then 0 else v);
    }
    if v :| v in s.dow { assert Denotes(fields, 4, v); }
  }

}

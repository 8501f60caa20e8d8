/** How a tool call's arguments become the path of the request it stands for. */
module ToolPath {
  import opened Wrappers
  import opened Strings

  /* ---------- tools and arguments ---------- */

  /** Fixed text of a path template, or a placeholder {name}. */
  datatype Piece = Lit(text: string) | Hole(name: string)

  /** One '/'-separated part of a path template. */
  type Segment = seq<Piece>

  datatype Dest = PathArg | EnvArg | QueryArg | BodyArg | RawBodyArg

  datatype Param = Param(name: string, required: bool, dest: Dest)

  datatype Tool = Tool(template: seq<Segment>, envScoped: bool, params: seq<Param>)

  /** A decoded JSON argument; numbers and composite values carry the text Go prints for them. */
  datatype Value = Null | Text(text: Bytes) | Flag(b: bool) | Number(digits: Bytes) | Composite(json: Bytes)

  function ArgString(v: Value): Bytes {
    match v
    case Text(s) => s
    case Number(s) => s
    case Flag(b) => if b then "true" else "false"
    case Composite(s) => s
    case Null => "null"
  }

  /** Text that is neither a delimiter of the path nor of a placeholder. */
  predicate Plain(s: string) { '/' !in s && '{' !in s && '}' !in s }

  ghost predicate PlainPiece(p: Piece) { Plain(if p.Lit? then p.text else p.name) }

  ghost predicate PlainSegment(seg: Segment) { forall j :: 0 <= j < |seg| ==> PlainPiece(seg[j]) }

  ghost predicate PlainTemplate(t: seq<Segment>) { forall i :: 0 <= i < |t| ==> PlainSegment(t[i]) }

  /** What every entry of the registry satisfies: plain texts and names, and "env" only as the implicit
      parameter. */
  ghost predicate ValidTool(tool: Tool) {
    && PlainTemplate(tool.template)
    && forall i :: 0 <= i < |tool.params| ==> Plain(tool.params[i].name) && !tool.params[i].dest.EnvArg?
  }

  function Mark(p: Piece): string {
    match p
    case Lit(text) => text
    case Hole(name) => "{" + name + "}"
  }

  /** The segment as it is written. */
  function Written(seg: Segment): string {
    if seg == [] then "" else Mark(seg[0]) + Written(seg[1..])
  }

  lemma {:induction false} WrittenHasNoSlash(seg: Segment)
    requires PlainSegment(seg)
    ensures '/' !in Written(seg)
  {
    if seg != [] {
      assert PlainPiece(seg[0]);
      WrittenHasNoSlash(seg[1..]);
    }
  }

  function Render(t: seq<Segment>): string {
    if t == [] then "" else "/" + Written(t[0]) + Render(t[1..])
  }

  /** The parameters of the tool, in order, and last the optional environment if it has one. */
  function Params(tool: Tool): (ps: seq<Param>)
    ensures |ps| == |tool.params| + (if tool.envScoped then 1 else 0)
    ensures forall i :: 0 <= i < |tool.params| ==> ps[i] == tool.params[i]
    ensures tool.envScoped ==> ps[|tool.params|] == Param("env", false, EnvArg)
  {
    tool.params + if tool.envScoped then [Param("env", false, EnvArg)] else []
  }

  /* ---------- percent-encoding (RFC 3986, sections 2.1 and 3.3) ---------- */

  predicate Unescaped(c: char) {
    ('a' <= c <= 'z') || ('A' <= c <= 'Z') || ('0' <= c <= '9') || c in "-_.~$&+:=@"
  }

  const HEX := "0123456789ABCDEF"

  function Percent(c: char): string
    requires c < '\U{100}'
  {
    ['%', HEX[c as int / 16], HEX[c as int % 16]]
  }

  /** `url.PathEscape`. */
  function PathEscape(s: Bytes): string {
    if s == [] then [] else (if Unescaped(s[0]) then [s[0]] else Percent(s[0])) + PathEscape(s[1..])
  }

  ghost function HexValue(c: char): int {
    if '0' <= c <= '9' then c as int - '0' as int
    else if 'A' <= c <= 'F' then c as int - 'A' as int + 10
    else if 'a' <= c <= 'f' then c as int - 'a' as int + 10
    else -1
  }

  /** Percent-decoding, as the server does it. */
  ghost function Unescape(s: string): Option<string> {
    if s == [] then Some([])
    else if s[0] != '%' then
      match Unescape(s[1..])
      case None => None
      case Some(rest) => Some([s[0]] + rest)
    else if |s| < 3 || HexValue(s[1]) < 0 || HexValue(s[2]) < 0 then None
    else
      match Unescape(s[3..])
      case None => None
      case Some(rest) => Some([(16 * HexValue(s[1]) + HexValue(s[2])) as char] + rest)
  }

  lemma PercentDecodes(c: char)
    requires c < '\U{100}'
    ensures var p := Percent(c);
            HexValue(p[1]) >= 0 && HexValue(p[2]) >= 0 && (16 * HexValue(p[1]) + HexValue(p[2])) as char == c
    ensures Plain(Percent(c))
  {
    HexDigits(c as int / 16);
    HexDigits(c as int % 16);
  }

  lemma HexDigits(d: int)
    requires 0 <= d < 16
    ensures HexValue(HEX[d]) == d && HEX[d] !in "/{}%"
  {}

  ghost function Prepend(text: string, o: Option<string>): Option<string> {
    match o
    case None => None
    case Some(rest) => Some(text + rest)
  }

  lemma PrependTwice(a: string, b: string, o: Option<string>)
    ensures Prepend(a, Prepend(b, o)) == Prepend(a + b, o)
  {
    if o.Some? { assert a + (b + o.value) == (a + b) + o.value; }
  }

  lemma PrependNothing(o: Option<string>)
    ensures Prepend("", o) == o
  {
    if o.Some? { assert "" + o.value == o.value; }
  }

  /** Text without escapes decodes to itself. */
  lemma {:induction false} UnescapeText(m: string, rest: string)
    requires '%' !in m
    ensures Unescape(m + rest) == Prepend(m, Unescape(rest))
  {
    hide Prepend;
    if m == [] {
      assert m + rest == rest;
      PrependNothing(Unescape(rest));
    } else {
      UnescapeText(m[1..], rest);
      assert m == [m[0]] + m[1..];
      assert (m + rest)[1..] == m[1..] + rest;
      PrependTwice([m[0]], m[1..], Unescape(rest));
      UnescapeOne(m + rest);
    }
  }

  lemma UnescapeOne(s: string)
    requires s != [] && s[0] != '%'
    ensures Unescape(s) == Prepend([s[0]], Unescape(s[1..]))
  {}

  lemma UnescapePercent(c: char, rest: string)
    requires c < '\U{100}'
    ensures Unescape(Percent(c) + rest) == Prepend([c], Unescape(rest))
  {
    PercentDecodes(c);
    assert (Percent(c) + rest)[3..] == rest;
  }

  lemma {:induction false} UnescapeArgument(s: Bytes, rest: string)
    ensures Unescape(PathEscape(s) + rest) == Prepend(s, Unescape(rest))
  {
    hide Prepend, Unescape, Percent;
    if s == [] {
      assert PathEscape(s) + rest == rest;
      PrependNothing(Unescape(rest));
    } else {
      var tail := PathEscape(s[1..]) + rest;
      UnescapeArgument(s[1..], rest);
      assert s == [s[0]] + s[1..];
      PrependTwice([s[0]], s[1..], Unescape(rest));
      if Unescaped(s[0]) {
        assert PathEscape(s) + rest == [s[0]] + tail && ([s[0]] + tail)[1..] == tail;
        UnescapeOne([s[0]] + tail);
      } else {
        assert PathEscape(s) + rest == Percent(s[0]) + tail;
        UnescapePercent(s[0], tail);
      }
    }
  }

  /** Decoding gives the argument back. */
  lemma EscapeRoundTrip(s: Bytes)
    ensures Unescape(PathEscape(s)) == Some(s)
  {
    UnescapeArgument(s, "");
    assert PathEscape(s) + "" == PathEscape(s) && s + "" == s;
  }

  /** Letters, digits and ten punctuation characters stay; any other byte is written as three. */
  lemma EscapeExactly(c: char)
    requires c < '\U{100}'
    ensures var kept := 'a' <= c <= 'z' || 'A' <= c <= 'Z' || '0' <= c <= '9'
                        || c in {'-', '_', '.', '~', '$', '&', '+', ':', '=', '@'};
            if kept then PathEscape([c]) == [c] else |PathEscape([c])| == 3 && PathEscape([c])[0] == '%'
  {
    assert PathEscape([c]) == if Unescaped(c) then [c] else Percent(c);
  }

  lemma {:induction false} EscapeIsPlain(s: Bytes)
    ensures Plain(PathEscape(s))
  {
    if s != [] {
      EscapeIsPlain(s[1..]);
      if !Unescaped(s[0]) { PercentDecodes(s[0]); }
    }
  }

  /* ---------- one placeholder at a time ---------- */

  ghost function SubstPiece(p: Piece, name: string, text: string): Piece { if p == Hole(name) then Lit(text) else p }

  ghost function SubstIn(seg: Segment, name: string, text: string): (r: Segment)
    ensures |r| == |seg|
  {
    seq(|seg|, j requires 0 <= j < |seg| => SubstPiece(seg[j], name, text))
  }

  ghost function Subst(t: seq<Segment>, name: string, text: string): (r: seq<Segment>)
    ensures |r| == |t|
  {
    seq(|t|, i requires 0 <= i < |t| => SubstIn(t[i], name, text))
  }

  lemma PassOver(m: string, rest: string, hole: string, text: string)
    requires '{' !in m && hole != [] && hole[0] == '{'
    ensures ReplaceAll(m + rest, hole, text) == m + ReplaceAll(rest, hole, text)
  {
    forall i | 0 <= i < |m| ensures !OccursAt(m + rest, hole, i) {
      assert (m + rest)[i] == m[i];
      if i + |hole| <= |m + rest| { assert (m + rest)[i..i + |hole|][0] == (m + rest)[i]; }
    }
    Skips(m, rest, hole, text);
  }

  /** Another placeholder is passed over. */
  lemma OtherHole(other: string, name: string, rest: string, text: string)
    requires Plain(other) && Plain(name) && other != name
    ensures ReplaceAll(("{" + other + "}") + rest, "{" + name + "}", text)
         == ("{" + other + "}") + ReplaceAll(rest, "{" + name + "}", text)
  {
    hide ReplaceAll;
    var hole, tail := "{" + name + "}", (other + "}") + rest;
    PassOver(other + "}", rest, hole, text);
    if OccursAt("{" + tail, hole, 0) {
      var after := ("{" + tail)[|hole|..];
      assert "{" + tail == hole + after;
      assert ("{" + tail)[1..] == other + ['}'] + rest;
      assert (hole + after)[1..] == name + ['}'] + after;
      SameCut(other, rest, name, after, '}');
    }
    Skips("{", tail, hole, text);
    assert ("{" + other + "}") + rest == "{" + tail;
    var r := ReplaceAll(rest, hole, text);
    assert ("{" + other + "}") + r == "{" + ((other + "}") + r);
  }

  lemma ReplaceAtHole(hole: string, rest: string, text: string)
    requires hole != []
    ensures ReplaceAll(hole + rest, hole, text) == text + ReplaceAll(rest, hole, text)
  {
    assert (hole + rest)[..|hole|] == hole && (hole + rest)[|hole|..] == rest;
  }

  lemma ReplaceInPiece(p: Piece, rest: string, name: string, text: string)
    requires PlainPiece(p) && Plain(name)
    ensures ReplaceAll(Mark(p) + rest, "{" + name + "}", text)
         == Mark(SubstPiece(p, name, text)) + ReplaceAll(rest, "{" + name + "}", text)
  {
    hide ReplaceAll;
    match p
    case Lit(literal) => PassOver(literal, rest, "{" + name + "}", text);
    case Hole(other) =>
      if other == name { ReplaceAtHole("{" + name + "}", rest, text); } else { OtherHole(other, name, rest, text); }
  }

  lemma {:induction false} ReplaceInSegment(seg: Segment, rest: string, name: string, text: string)
    requires PlainSegment(seg) && Plain(name)
    ensures ReplaceAll(Written(seg) + rest, "{" + name + "}", text)
         == Written(SubstIn(seg, name, text)) + ReplaceAll(rest, "{" + name + "}", text)
  {
    hide ReplaceAll, Mark, SubstPiece, PlainPiece;
    var hole, r := "{" + name + "}", SubstIn(seg, name, text);
    var after := ReplaceAll(rest, hole, text);
    if seg == [] {
      assert Written(seg) + rest == rest && Written(r) + after == after;
    } else {
      var w := Written(seg[1..]);
      assert Written(seg) + rest == Mark(seg[0]) + (w + rest);
      ReplaceInPiece(seg[0], w + rest, name, text);
      ReplaceInSegment(seg[1..], rest, name, text);
      assert r[1..] == SubstIn(seg[1..], name, text);
      assert Written(r) + after == Mark(r[0]) + (Written(r[1..]) + after);
    }
  }

  /** Replacing {name} in the text is replacing that placeholder in the template. */
  lemma {:induction false} ReplaceIsSubst(t: seq<Segment>, name: string, text: string)
    requires PlainTemplate(t) && Plain(name)
    ensures ReplaceAll(Render(t), "{" + name + "}", text) == Render(Subst(t, name, text))
  {
    hide ReplaceAll, Written, SubstIn, PlainSegment;
    var hole, r := "{" + name + "}", Subst(t, name, text);
    if t == [] {
      assert ReplaceAll("", hole, text) == "" by { NothingThere(hole, text); }
    } else {
      var rest := Render(t[1..]);
      ReplaceIsSubst(t[1..], name, text);
      assert r[1..] == Subst(t[1..], name, text);
      ReplaceInSegment(t[0], rest, name, text);
      PassOver("/", Written(t[0]) + rest, hole, text);
      assert Render(t) == "/" + (Written(t[0]) + rest);
      assert Render(r) == "/" + (Written(r[0]) + Render(r[1..]));
    }
  }

  lemma NothingThere(hole: string, text: string)
    requires hole != []
    ensures ReplaceAll("", hole, text) == ""
  {}

  /* ---------- the environment-qualified route ---------- */

  const PROJECT_PREFIX := "/v1/projects/{project}/"

  /** `strings.Replace(s, old, new, 1)` for a nonempty `old`. */
  function ReplaceFirst(s: string, old_: string, new_: string): string {
    if |s| < |old_| then s
    else if s[..|old_|] == old_ then new_ + s[|old_|..]
    else if s == [] then []
    else [s[0]] + ReplaceFirst(s[1..], old_, new_)
  }

  ghost predicate StartsWithProject(t: seq<Segment>) {
    |t| > 3 && Written(t[0]) == "v1" && Written(t[1]) == "projects" && Written(t[2]) == "{project}"
  }

  const ENV_SEGMENTS: seq<Segment> := [[Lit("envs")], [Hole("env")]]

  /** The template with envs/{env} inserted after the first project segment. */
  ghost function InsertEnv(t: seq<Segment>): seq<Segment> {
    if t == [] then []
    else if StartsWithProject(t) then t[..3] + ENV_SEGMENTS + t[3..]
    else [t[0]] + InsertEnv(t[1..])
  }

  lemma {:induction false} InsertEnvPlain(t: seq<Segment>)
    requires PlainTemplate(t)
    ensures PlainTemplate(InsertEnv(t))
  {
    hide Written;
    assert PlainSegment(ENV_SEGMENTS[0]) && PlainSegment(ENV_SEGMENTS[1]);
    if t != [] && !StartsWithProject(t) { InsertEnvPlain(t[1..]); }
  }

  /** A rendered template begins with "/" + `text` + `more`, where `more` starts the next segment, exactly
      when its first segment is written so and the others begin with `more`. */
  lemma FirstSegment(t: seq<Segment>, text: string, more: string)
    requires PlainTemplate(t) && '/' !in text && more != [] && more[0] == '/'
    ensures "/" + text + more <= Render(t) <==> t != [] && Written(t[0]) == text && more <= Render(t[1..])
  {
    hide Written, Render;
    RenderHead(t);
    if t != [] {
      RenderHead(t[1..]);
      if "/" + text + more <= Render(t) { SameFirstPart(text, more, Written(t[0]), Render(t[1..])); }
    }
  }

  lemma SameFirstPart(text: string, more: string, w: string, rest: string)
    requires '/' !in text && '/' !in w && more != [] && more[0] == '/' && (rest != [] ==> rest[0] == '/')
    requires "/" + text + more <= "/" + w + rest
    ensures text == w && more <= rest
  {
    var p, s := "/" + text + more, "/" + w + rest;
    var tail := s[|p|..];
    assert s == p + tail;
    assert w + rest == s[1..] == text + ['/'] + (more[1..] + tail);
    if rest == [] {
      assert w == w + rest;
      SeparatorInside(text, '/', more[1..] + tail, w);
    } else {
      assert w + rest == w + ['/'] + rest[1..];
      SameCut(text, more[1..] + tail, w, rest[1..], '/');
      assert more == ['/'] + more[1..] && rest == ['/'] + rest[1..];
    }
  }

  lemma SeparatorInside(a: string, sep: char, x: string, s: string)
    requires s == a + [sep] + x
    ensures sep in s
  {}

  lemma RenderHead(t: seq<Segment>)
    requires PlainTemplate(t)
    ensures t == [] ==> Render(t) == []
    ensures t != [] ==> Render(t) == "/" + Written(t[0]) + Render(t[1..]) && '/' !in Written(t[0])
    ensures t != [] ==> Render(t) != [] && Render(t)[0] == '/'
  {
    hide Written, PlainSegment;
    if t != [] { WrittenHasNoSlash(t[0]); }
  }

  lemma TailPlain(t: seq<Segment>)
    requires PlainTemplate(t) && t != []
    ensures PlainTemplate(t[1..])
  {}

  lemma ProjectPrefix(t: seq<Segment>)
    requires PlainTemplate(t)
    ensures PROJECT_PREFIX <= Render(t) <==> StartsWithProject(t)
  {
    hide Render, Written;
    ThreeSegments(t, "v1", "projects", "{project}");
  }

  lemma ThreeSegments(t: seq<Segment>, a: string, b: string, c: string)
    requires PlainTemplate(t) && '/' !in a && '/' !in b && '/' !in c
    ensures "/" + a + ("/" + b + ("/" + c + "/")) <= Render(t)
       <==> |t| > 3 && Written(t[0]) == a && Written(t[1]) == b && Written(t[2]) == c
  {
    hide Render, Written, PlainTemplate;
    FirstSegment(t, a, "/" + b + ("/" + c + "/"));
    if t != [] {
      TailPlain(t);
      FirstSegment(t[1..], b, "/" + c + "/");
      if |t| > 1 {
        TailPlain(t[1..]);
        FirstSegment(t[1..][1..], c, "/");
        if |t| > 2 {
          TailPlain(t[1..][1..]);
          RenderHead(t[1..][1..][1..]);
        }
      }
    }
  }

  lemma {:induction false} RenderConcat(a: seq<Segment>, b: seq<Segment>)
    ensures Render(a + b) == Render(a) + Render(b)
  {
    hide Written;
    if a == [] {
      assert a + b == b;
    } else {
      assert (a + b)[1..] == a[1..] + b;
      RenderConcat(a[1..], b);
      assert "/" + Written(a[0]) + (Render(a[1..]) + Render(b)) == "/" + Written(a[0]) + Render(a[1..]) + Render(b);
    }
  }

  lemma {:induction false} SkipsFirst(m: string, rest: string, u: string, new_: string)
    requires forall i :: 0 <= i < |m| ==> !OccursAt(m + rest, u, i)
    ensures u != [] ==> ReplaceFirst(m + rest, u, new_) == m + ReplaceFirst(rest, u, new_)
  {
    var s := m + rest;
    if m == [] {
      assert s == rest;
    } else {
      var s' := m[1..] + rest;
      assert s == [m[0]] + s';
      assert !OccursAt(s, u, 0);
      forall i | 0 <= i < |m[1..]| ensures !OccursAt(s', u, i) {
        OccursShifted([m[0]], s', u, i + 1);
      }
      SkipsFirst(m[1..], rest, u, new_);
      assert s[1..] == s';
      var r := ReplaceFirst(rest, u, new_);
      assert m + r == [m[0]] + (m[1..] + r);
    }
  }

  const ENV_PREFIX := PROJECT_PREFIX + ("envs/{env}" + "/")

  lemma {:induction false} InsertIsReplaceFirst(t: seq<Segment>)
    requires PlainTemplate(t)
    ensures ReplaceFirst(Render(t), PROJECT_PREFIX, ENV_PREFIX) == Render(InsertEnv(t))
  {
    hide Written, PlainTemplate;
    ProjectPrefix(t);
    if t == [] {
    } else if StartsWithProject(t) {
      InsertAtProject(t);
    } else {
      TailPlain(t);
      InsertIsReplaceFirst(t[1..]);
      RenderHead(t);
      var m, rest := "/" + Written(t[0]), Render(t[1..]);
      forall i | 0 <= i < |m| ensures !OccursAt(m + rest, PROJECT_PREFIX, i) {
        if i > 0 { NotASlash(m, rest, i); }
      }
      SkipsFirst(m, rest, PROJECT_PREFIX, ENV_PREFIX);
      assert ([t[0]] + InsertEnv(t[1..]))[1..] == InsertEnv(t[1..]);
    }
  }

  lemma NotASlash(m: string, rest: string, i: nat)
    requires i < |m| && m[i] != '/'
    ensures !OccursAt(m + rest, PROJECT_PREFIX, i)
  {
    if i + |PROJECT_PREFIX| <= |m + rest| {
      assert (m + rest)[i..i + |PROJECT_PREFIX|][0] == m[i];
    }
  }

  lemma InsertAtProject(t: seq<Segment>)
    requires PlainTemplate(t) && StartsWithProject(t) && PROJECT_PREFIX <= Render(t)
    ensures ReplaceFirst(Render(t), PROJECT_PREFIX, ENV_PREFIX) == Render(InsertEnv(t))
  {
    hide PlainTemplate, Written;
    var rest := t[3..];
    assert t == t[..3] + rest && InsertEnv(t) == t[..3] + (ENV_SEGMENTS + rest);
    RenderConcat(t[..3], rest);
    RenderConcat(t[..3], ENV_SEGMENTS + rest);
    RenderConcat(ENV_SEGMENTS, rest);
    RenderProject(t);
    RenderEnv();
    TailPlain(t);
    TailPlain(t[1..]);
    TailPlain(t[1..][1..]);
    assert rest == t[1..][1..][1..];
    RenderHead(rest);
    InsertAfter(PROJECT_PREFIX, Render(t[..3]), "envs/{env}", Render(rest));
    assert "/" + "envs/{env}" == "/envs/{env}";
  }

  lemma InsertAfter(prefix: string, head: string, more: string, rest: string)
    requires rest != [] && rest[0] == '/' && head + "/" == prefix
    ensures ReplaceFirst(head + rest, prefix, prefix + (more + "/")) == head + ("/" + more + rest)
  {
    hide ReplaceFirst;
    var tail := rest[1..];
    assert rest == "/" + tail && head + rest == prefix + tail;
    ReplaceFirstAtStart(prefix, prefix + (more + "/"), tail);
    assert prefix + (more + "/") + tail == head + ("/" + more + ("/" + tail));
  }

  lemma ReplaceFirstAtStart(old_: string, new_: string, rest: string)
    ensures ReplaceFirst(old_ + rest, old_, new_) == new_ + rest
  {
    assert (old_ + rest)[..|old_|] == old_ && (old_ + rest)[|old_|..] == rest;
  }

  lemma RenderProject(t: seq<Segment>)
    requires StartsWithProject(t)
    ensures Render(t[..3]) + "/" == PROJECT_PREFIX
  {
    hide Render, Written;
    assert t[..3] == [t[0], t[1], t[2]];
    RenderThree(t[0], t[1], t[2]);
    assert "/" + "v1" + ("/" + "projects" + ("/" + "{project}")) + "/" == PROJECT_PREFIX;
  }

  lemma RenderEnv()
    ensures Render(ENV_SEGMENTS) == "/envs/{env}"
  {
    hide Render;
    RenderTwo([Lit("envs")], [Hole("env")]);
    assert "{" + "env" + "}" == "{env}";
  }

  lemma RenderTwo(a: Segment, b: Segment)
    ensures Render([a, b]) == "/" + Written(a) + ("/" + Written(b))
  {
    hide Written;
    assert [a, b][1..] == [b] && [b][1..] == [];
    assert Render([b]) == "/" + Written(b);
  }

  lemma RenderThree(a: Segment, b: Segment, c: Segment)
    ensures Render([a, b, c]) == "/" + Written(a) + ("/" + Written(b) + ("/" + Written(c)))
  {
    hide Written;
    assert [a, b, c][1..] == [b, c];
    RenderTwo(b, c);
  }

  /* ---------- all placeholders at once ---------- */

  type Args = map<string, Value>

  predicate Given(args: Args, name: string) { name in args && args[name] != Null }

  predicate GivenText(args: Args, name: string) { Given(args, name) && ArgString(args[name]) != "" }

  /** There is an argument of that name, it is not null, and it is not empty. */
  ghost predicate HasText(args: Args, name: string) {
    name in args && args[name] !in {Null, Text(""), Number(""), Composite("")}
  }

  lemma GivenTextMeans(args: Args, name: string)
    ensures GivenText(args, name) <==> HasText(args, name)
  {
    if name in args { assert args[name].Flag? ==> |ArgString(args[name])| >= 4; }
  }

  /** The template the call uses: environment-qualified when the tool allows it and env is given. */
  ghost function Effective(tool: Tool, args: Args): seq<Segment> {
    if tool.envScoped && HasText(args, "env") then InsertEnv(tool.template) else tool.template
  }

  ghost predicate Fills(p: Param, args: Args) { (p.dest.PathArg? || p.dest.EnvArg?) && GivenText(args, p.name) }

  /** Some parameter among `ps` fills the placeholder. */
  ghost predicate Filled(ps: seq<Param>, args: Args, name: string) {
    exists i :: 0 <= i < |ps| && ps[i].name == name && Fills(ps[i], args)
  }

  ghost function FillPiece(p: Piece, ps: seq<Param>, args: Args): Piece {
    if p.Hole? && Filled(ps, args, p.name) then Lit(PathEscape(ArgString(args[p.name]))) else p
  }

  ghost function FillIn(seg: Segment, ps: seq<Param>, args: Args): (r: Segment)
    ensures |r| == |seg|
  {
    seq(|seg|, j requires 0 <= j < |seg| => FillPiece(seg[j], ps, args))
  }

  /** Every filled placeholder replaced by its argument, simultaneously. */
  ghost function Fill(t: seq<Segment>, ps: seq<Param>, args: Args): (r: seq<Segment>)
    ensures |r| == |t|
  {
    seq(|t|, i requires 0 <= i < |t| => FillIn(t[i], ps, args))
  }

  lemma FilledOneMore(ps: seq<Param>, p: Param, args: Args, name: string)
    ensures Filled(ps + [p], args, name) <==> Filled(ps, args, name) || (p.name == name && Fills(p, args))
  {
    var all := ps + [p];
    assert all[|ps|] == p;
    if Filled(ps, args, name) {
      var i :| 0 <= i < |ps| && ps[i].name == name && Fills(ps[i], args);
      assert all[i] == ps[i];
    }
  }

  lemma FillPieceOneMore(x: Piece, ps: seq<Param>, p: Param, args: Args)
    ensures FillPiece(x, ps + [p], args)
         == if Fills(p, args) then SubstPiece(FillPiece(x, ps, args), p.name, PathEscape(ArgString(args[p.name])))
            else FillPiece(x, ps, args)
  {
    hide PathEscape, Filled, ArgString;
    if x.Hole? { FilledOneMore(ps, p, args, x.name); }
  }

  lemma FillOneMore(t: seq<Segment>, ps: seq<Param>, p: Param, args: Args)
    ensures Fill(t, ps + [p], args)
         == if Fills(p, args) then Subst(Fill(t, ps, args), p.name, PathEscape(ArgString(args[p.name])))
            else Fill(t, ps, args)
  {
    hide PathEscape, FillPiece, SubstPiece, ArgString;
    forall i | 0 <= i < |t|
      ensures Fill(t, ps + [p], args)[i]
           == if Fills(p, args) then SubstIn(FillIn(t[i], ps, args), p.name, PathEscape(ArgString(args[p.name])))
              else FillIn(t[i], ps, args)
    {
      forall j | 0 <= j < |t[i]|
        ensures FillPiece(t[i][j], ps + [p], args)
             == if Fills(p, args) then
                  SubstPiece(FillPiece(t[i][j], ps, args), p.name, PathEscape(ArgString(args[p.name])))
                else FillPiece(t[i][j], ps, args)
      {
        FillPieceOneMore(t[i][j], ps, p, args);
      }
    }
  }

  lemma FillPlain(t: seq<Segment>, ps: seq<Param>, args: Args)
    requires PlainTemplate(t)
    ensures PlainTemplate(Fill(t, ps, args))
  {
    hide PathEscape, Plain, Filled;
    forall i, j | 0 <= i < |t| && 0 <= j < |t[i]| ensures PlainPiece(FillPiece(t[i][j], ps, args)) {
      assert PlainSegment(t[i]);
      var p := t[i][j];
      if p.Hole? && Filled(ps, args, p.name) {
        FilledIsGiven(ps, args, p.name);
        EscapeIsPlain(ArgString(args[p.name]));
      }
    }
  }

  datatype PathError = MissingArgument(name: string) | EmptyArgument(name: string) | Unresolved(path: string)

  ghost predicate Missing(p: Param, args: Args) { p.required && (p.name !in args || args[p.name] == Null) }

  ghost predicate Empty(p: Param, args: Args) {
    p.dest.PathArg? && p.name in args && args[p.name] in {Text(""), Number(""), Composite("")}
  }

  /** No required argument is missing and no path argument is empty. */
  ghost predicate Complete(ps: seq<Param>, args: Args) {
    forall i :: 0 <= i < |ps| ==> !Missing(ps[i], args) && !Empty(ps[i], args)
  }

  ghost predicate AllText(seg: Segment) { forall j :: 0 <= j < |seg| ==> seg[j].Lit? }

  ghost predicate NoHoles(t: seq<Segment>) { forall i :: 0 <= i < |t| ==> AllText(t[i]) }

  lemma {:induction false} SegmentBraces(seg: Segment)
    requires PlainSegment(seg)
    ensures '{' in Written(seg) <==> !AllText(seg)
  {
    if seg != [] {
      assert PlainPiece(seg[0]);
      SegmentBraces(seg[1..]);
      assert AllText(seg) <==> seg[0].Lit? && AllText(seg[1..]);
      assert seg[0].Hole? ==> Mark(seg[0])[0] == '{';
    }
  }

  lemma {:induction false} BracesAreHoles(t: seq<Segment>)
    requires PlainTemplate(t)
    ensures '{' in Render(t) <==> !NoHoles(t)
  {
    hide Written, PlainSegment, AllText;
    if t != [] {
      BracesAreHoles(t[1..]);
      SegmentBraces(t[0]);
      assert NoHoles(t) <==> AllText(t[0]) && NoHoles(t[1..]);
      assert Render(t) == "/" + Written(t[0]) + Render(t[1..]);
    }
  }

  /** BuildRequest, up to the query: filling the placeholders one at a time in the text of the path is
      filling them all at once, and the failures are exactly the listed ones, the first in order. */
  method BuildPath(tool: Tool, args: Args) returns (r: Result<string, PathError>)
    requires ValidTool(tool)
    ensures var ps := Params(tool);
            var t := Fill(Effective(tool, args), ps, args);
            && (r.Ok? <==> Complete(ps, args) && NoHoles(t))
            && (r.Ok? ==> r.value == Render(t))
            && (r.Err? && r.error.Unresolved? ==> Complete(ps, args) && r.error.path == Render(t))
    ensures r.Err? && !r.error.Unresolved? ==> exists i :: FirstProblem(Params(tool), args, r.error, i)
  {
    hide Render, ReplaceAll, ReplaceFirst, Fill, PathEscape, PlainTemplate, InsertEnv, Subst;
    hide HasText, GivenText, Missing, Empty, ArgString;
    var path := Render(tool.template);
    GivenTextMeans(args, "env");
    ghost var t := Effective(tool, args);
    InsertEnvPlain(tool.template);
    if tool.envScoped && GivenText(args, "env") {
      InsertIsReplaceFirst(tool.template);
      path := ReplaceFirst(path, PROJECT_PREFIX, ENV_PREFIX);
    }
    var ps := Params(tool);
    FillNothing(t, args);
    for i := 0 to |ps|
      invariant Complete(ps[..i], args)
      invariant path == Render(Fill(t, ps[..i], args))
    {
      var p := ps[i];
      assert ps[..i + 1] == ps[..i] + [p];
      FillOneMore(t, ps[..i], p, args);
      ProblemsOf(p, args);
      if !Given(args, p.name) {
        if p.required {
          assert FirstProblem(ps, args, MissingArgument(p.name), i);
          return Err(MissingArgument(p.name));
        }
      } else if p.dest.PathArg? || p.dest.EnvArg? {
        var s := ArgString(args[p.name]);
        if p.dest.PathArg? && s == "" {
          assert FirstProblem(ps, args, EmptyArgument(p.name), i);
          return Err(EmptyArgument(p.name));
        }
        if s != "" {
          FillPlain(t, ps[..i], args);
          ReplaceIsSubst(Fill(t, ps[..i], args), p.name, PathEscape(s));
          path := ReplaceAll(path, "{" + p.name + "}", PathEscape(s));
        }
      }
    }
    assert ps[..|ps|] == ps;
    FillPlain(t, ps, args);
    BracesAreHoles(Fill(t, ps, args));
    if '{' in path { return Err(Unresolved(path)); }
    return Ok(path);
  }

  lemma ProblemsOf(p: Param, args: Args)
    ensures Missing(p, args) <==> p.required && !Given(args, p.name)
    ensures Empty(p, args) <==> p.dest.PathArg? && Given(args, p.name) && ArgString(args[p.name]) == ""
    ensures GivenText(args, p.name) <==> Given(args, p.name) && ArgString(args[p.name]) != ""
  {
    if p.name in args { assert args[p.name].Flag? ==> |ArgString(args[p.name])| >= 4; }
  }

  /** Parameter `i` is what the error is about, and no earlier one has a problem. */
  ghost predicate FirstProblem(ps: seq<Param>, args: Args, e: PathError, i: int) {
    && 0 <= i < |ps| && Complete(ps[..i], args)
    && (|| (e == MissingArgument(ps[i].name) && Missing(ps[i], args))
        || (e == EmptyArgument(ps[i].name) && Empty(ps[i], args)))
  }

  lemma FillNothing(t: seq<Segment>, args: Args)
    ensures Fill(t, [], args) == t
  {
    forall i | 0 <= i < |t| ensures FillIn(t[i], [], args) == t[i] {
      assert forall j :: 0 <= j < |t[i]| ==> FillPiece(t[i][j], [], args) == t[i][j];
    }
  }

  /* ---------- what the server reads ---------- */

  ghost function Texts(t: seq<Segment>): seq<string> { seq(|t|, i requires 0 <= i < |t| => Written(t[i])) }

  lemma {:induction false} RenderIsJoin(t: seq<Segment>)
    ensures Render(t) == JoinByte([""] + Texts(t), '/')
  {
    hide JoinByte, Written;
    if t == [] {
      assert [""] + Texts(t) == [""];
      JoinOne("");
    } else {
      var tail := Texts(t[1..]);
      assert Texts(t) == [Written(t[0])] + tail;
      JoinHead(Texts(t));
      RenderIsJoin(t[1..]);
      if |t| == 1 {
        assert Texts(t) == [Written(t[0])];
        JoinOne(Written(t[0]));
      } else {
        JoinHead(tail);
        JoinCons(Written(t[0]), tail);
      }
    }
  }

  lemma JoinOne(s: string)
    ensures JoinByte([s], '/') == s
  {}

  lemma JoinCons(s: string, parts: seq<string>)
    requires parts != []
    ensures "/" + JoinByte([s] + parts, '/') == "/" + s + ("/" + JoinByte(parts, '/'))
  {}

  lemma JoinHead(parts: seq<string>)
    requires parts != []
    ensures JoinByte([""] + parts, '/') == "/" + JoinByte(parts, '/')
  {}

  /** What a segment stands for: its fixed text and, for each placeholder, the argument. */
  ghost function Meaning(seg: Segment, args: Args): string {
    if seg == [] then ""
    else
      (match seg[0]
       case Lit(text) => text
       case Hole(name) => if name in args then AsText(args[name]) else "") + Meaning(seg[1..], args)
  }

  /** A text stands for itself, a number or composite value for what Go prints; a flag or null is spelled out. */
  ghost function AsText(v: Value): string {
    if v.Text? then v.text else if v.Number? then v.digits else if v.Composite? then v.json
    else if v == Flag(true) then "true" else if v == Flag(false) then "false" else "null"
  }

  lemma ArgStringIsText(v: Value)
    ensures ArgString(v) == AsText(v)
  {}

  /** Every placeholder of the segment has an argument. */
  ghost predicate HolesGiven(seg: Segment, args: Args) {
    forall j :: 0 <= j < |seg| && seg[j].Hole? ==> HasText(args, seg[j].name)
  }

  /** The fixed text of the segment has no escape of its own. */
  ghost predicate NoPercent(seg: Segment) { forall j :: 0 <= j < |seg| && seg[j].Lit? ==> '%' !in seg[j].text }

  /** Decoding a filled segment gives what the segment stands for. */
  lemma {:induction false} SegmentDecodes(seg: Segment, ps: seq<Param>, args: Args)
    requires AllText(FillIn(seg, ps, args)) && NoPercent(seg)
    ensures Unescape(Written(FillIn(seg, ps, args))) == Some(Meaning(seg, args))
  {
    hide PathEscape, Filled;
    var r := FillIn(seg, ps, args);
    if seg != [] {
      assert r[1..] == FillIn(seg[1..], ps, args);
      SegmentDecodes(seg[1..], ps, args);
      assert r[0].Lit?;
      match seg[0]
      case Lit(text) => UnescapeText(text, Written(r[1..]));
      case Hole(name) =>
        FilledIsGiven(ps, args, name);
        ArgStringIsText(args[name]);
        UnescapeArgument(ArgString(args[name]), Written(r[1..]));
    }
  }

  lemma FilledHoles(seg: Segment, ps: seq<Param>, args: Args)
    requires AllText(FillIn(seg, ps, args))
    ensures HolesGiven(seg, args)
    ensures AllText(seg) ==> FillIn(seg, ps, args) == seg
  {
    hide PathEscape, Filled;
    forall j | 0 <= j < |seg| && seg[j].Hole? ensures HasText(args, seg[j].name) {
      assert FillIn(seg, ps, args)[j].Lit?;
      FilledIsGiven(ps, args, seg[j].name);
    }
  }

  /** The path of an accepted call has as many segments as the template it used; fixed ones are unchanged,
      every placeholder has its argument, and decoding a segment gives its text with the arguments in place. */
  lemma ServerReadsTheArguments(tool: Tool, args: Args)
    requires ValidTool(tool)
    requires NoHoles(Fill(Effective(tool, args), Params(tool), args))
    ensures var t := Effective(tool, args);
            var read := SplitByte(Render(Fill(t, Params(tool), args)), '/');
            && |read| == 1 + |t| && read[0] == ""
            && forall i :: 0 <= i < |t| ==>
                 && HolesGiven(t[i], args)
                 && (AllText(t[i]) ==> read[i + 1] == Written(t[i]))
                 && (NoPercent(t[i]) ==> Unescape(read[i + 1]) == Some(Meaning(t[i], args)))
  {
    hide Render, Written, Meaning, Unescape, JoinByte, SplitByte, Effective, Params, PlainTemplate, FillIn;
    hide AllText, NoPercent, HolesGiven;
    var t, ps := Effective(tool, args), Params(tool);
    var filled := Fill(t, ps, args);
    EffectivePlain(tool, args);
    FillPlain(t, ps, args);
    RenderIsJoin(filled);
    NoSlashes(filled);
    SplitJoin([""] + Texts(filled), '/');
    forall i | 0 <= i < |t|
      ensures HolesGiven(t[i], args) && (AllText(t[i]) ==> FillIn(t[i], ps, args) == t[i])
      ensures NoPercent(t[i]) ==> Unescape(Written(filled[i])) == Some(Meaning(t[i], args))
    {
      assert AllText(filled[i]);
      FilledHoles(t[i], ps, args);
      if NoPercent(t[i]) { SegmentDecodes(t[i], ps, args); }
    }
  }

  lemma EffectivePlain(tool: Tool, args: Args)
    requires ValidTool(tool)
    ensures PlainTemplate(Effective(tool, args))
  {
    InsertEnvPlain(tool.template);
  }

  lemma NoSlashes(t: seq<Segment>)
    requires PlainTemplate(t)
    ensures forall i :: 0 <= i < |t| ==> '/' !in Written(t[i])
  {
    hide Written, PlainSegment;
    forall i | 0 <= i < |t| ensures '/' !in Written(t[i]) { WrittenHasNoSlash(t[i]); }
  }

  lemma FilledIsGiven(ps: seq<Param>, args: Args, name: string)
    requires Filled(ps, args, name)
    ensures GivenText(args, name) && HasText(args, name)
  {
    GivenTextMeans(args, name);
  }
}

/** Rendering of mail messages, and a reader for them. */
module Mail {
  import opened Wrappers
  import opened Strings

  /* ---------- line endings ---------- */

  function ToLF(s: string): string { ReplaceAll(s, "\r\n", "\n") }

  function ToCRLF(s: string): string { ReplaceAll(s, "\n", "\r\n") }

  /** normalizeCRLF */
  function NormalizeCRLF(s: Bytes): Bytes {
    ReplaceAllBytes(s, "\r\n", "\n");
    ReplaceAllBytes(ToLF(s), "\n", "\r\n");
    ToCRLF(ToLF(s))
  }

  lemma {:induction false} ReplaceAllBytes(s: Bytes, old_: string, new_: Bytes)
    requires old_ != []
    ensures IsBytes(ReplaceAll(s, old_, new_))
  {
    if |s| < |old_| {
    } else if s[..|old_|] == old_ {
      ReplaceAllBytes(s[|old_|..], old_, new_);
    } else {
      ReplaceAllBytes(s[1..], old_, new_);
    }
  }

  /** Every line feed comes right after a carriage return. */
  ghost predicate NoBareLF(s: string) { forall i :: 0 <= i < |s| && s[i] == '\n' ==> i > 0 && s[i - 1] == '\r' }

  lemma ToLFSteps(s: string)
    ensures s == [] ==> ToLF(s) == []
    ensures |s| >= 2 && s[0] == '\r' && s[1] == '\n' ==> ToLF(s) == "\n" + ToLF(s[2..])
    ensures s != [] && !(|s| >= 2 && s[0] == '\r' && s[1] == '\n') ==> ToLF(s) == [s[0]] + ToLF(s[1..])
  {}

  lemma ToCRLFSteps(s: string)
    ensures s == [] ==> ToCRLF(s) == []
    ensures s != [] ==> ToCRLF(s) == (if s[0] == '\n' then "\r\n" else [s[0]]) + ToCRLF(s[1..])
  {}

  /** Going to CRLF and back to LF changes nothing. */
  lemma {:induction false} BackToLF(x: string)
    ensures ToLF(ToCRLF(x)) == x
  {
    hide ToLF, ToCRLF;
    ToCRLFSteps(x);
    var y := ToCRLF(x);
    ToLFSteps(y);
    if x != [] {
      var rest := ToCRLF(x[1..]);
      BackToLF(x[1..]);
      ToCRLFSteps(x[1..]);
      if x[0] == '\n' {
        assert y[2..] == rest;
      } else {
        assert y[1..] == rest;
        assert rest != [] ==> rest[0] != '\n';
      }
      assert x == [x[0]] + x[1..];
    }
  }

  lemma NormalizeTwice(s: Bytes)
    ensures NormalizeCRLF(NormalizeCRLF(s)) == NormalizeCRLF(s)
  {
    BackToLF(ToLF(s));
  }

  lemma {:induction false} ToCRLFHasNoBareLF(s: string)
    ensures NoBareLF(ToCRLF(s))
  {
    hide ToCRLF;
    ToCRLFSteps(s);
    if s != [] { ToCRLFHasNoBareLF(s[1..]); }
  }

  lemma {:induction false} CRLFUnchanged(s: string)
    requires NoBareLF(s)
    ensures ToCRLF(ToLF(s)) == s
    decreases |s|
  {
    hide ToCRLF, ToLF;
    ToLFSteps(s);
    ToCRLFSteps(ToLF(s));
    if s == [] {
    } else if |s| >= 2 && s[0] == '\r' && s[1] == '\n' {
      var rest := s[2..];
      forall i | 0 <= i < |rest| && rest[i] == '\n' ensures i > 0 && rest[i - 1] == '\r' {
        assert s[i + 2] == '\n' && s[i + 1] == '\r';
      }
      CRLFUnchanged(rest);
      assert ToLF(s)[1..] == ToLF(rest);
      assert s == "\r\n" + rest;
    } else {
      var rest := s[1..];
      assert s[0] != '\n';
      forall i | 0 <= i < |rest| && rest[i] == '\n' ensures i > 0 && rest[i - 1] == '\r' {
        assert s[i + 1] == '\n' && s[i] == '\r';
      }
      CRLFUnchanged(rest);
      assert ToLF(s)[1..] == ToLF(rest);
      assert s == [s[0]] + rest;
    }
  }

  /** The text with a carriage return put before each line feed that has none, and before nothing else. */
  ghost function Repaired(s: string, afterCR: bool): string {
    if s == "" then ""
    else (if s[0] == '\n' && !afterCR then "\r\n" else [s[0]]) + Repaired(s[1..], s[0] == '\r')
  }

  lemma RepairedSteps(s: string, afterCR: bool)
    requires s != ""
    ensures s[0] != '\n' ==> Repaired(s, afterCR) == [s[0]] + Repaired(s[1..], s[0] == '\r')
    ensures s[0] == '\n' && !afterCR ==> Repaired(s, afterCR) == "\r\n" + Repaired(s[1..], false)
    ensures s[0] == '\n' && afterCR ==> Repaired(s, afterCR) == "\n" + Repaired(s[1..], false)
  {}

  lemma {:induction false} NormalizeRepairs(s: string)
    ensures ToCRLF(ToLF(s)) == Repaired(s, false)
    decreases |s|
  {
    hide ToLF, ToCRLF, Repaired;
    ToLFSteps(s);
    ToCRLFSteps(ToLF(s));
    if s == "" {
      NothingToRepair();
    } else if |s| >= 2 && s[0] == '\r' && s[1] == '\n' {
      NormalizeRepairs(s[2..]);
      assert ToLF(s)[1..] == ToLF(s[2..]);
      RepairedSteps(s, false);
      RepairedSteps(s[1..], true);
    } else {
      NormalizeRepairs(s[1..]);
      assert ToLF(s)[1..] == ToLF(s[1..]);
      RepairedSteps(s, false);
      if |s| >= 2 {
        RepairedSteps(s[1..], true);
        RepairedSteps(s[1..], false);
      } else {
        NothingToRepair();
      }
    }
  }

  lemma NothingToRepair()
    ensures Repaired("", false) == Repaired("", true) == ""
  {}

  /** Every bare line feed, and nothing else, gains a carriage return. */
  lemma NormalizeIsRepair(s: Bytes)
    ensures NormalizeCRLF(s) == Repaired(s, false)
  {
    NormalizeRepairs(s);
  }

  /** Normalised text is the text without bare line feeds. */
  lemma NormalExactly(s: Bytes)
    ensures NormalizeCRLF(s) == s <==> NoBareLF(s)
    ensures NoBareLF(NormalizeCRLF(s))
  {
    ToCRLFHasNoBareLF(ToLF(s));
    if NoBareLF(s) { CRLFUnchanged(s); }
  }

  /* ---------- base64 (RFC 2045, section 6.8) ---------- */

  function Digit64(n: int): (c: char)
    requires 0 <= n < 64
    ensures Value64(c) == n && c !in "-=\r\n"
  {
    if n < 26 then 'A' + n as char
    else if n < 52 then 'a' + (n - 26) as char
    else if n < 62 then '0' + (n - 52) as char
    else if n == 62 then '+' else '/'
  }

  ghost function Value64(c: char): (v: int)
    ensures v < 64
  {
    if 'A' <= c <= 'Z' then c as int - 'A' as int
    else if 'a' <= c <= 'z' then c as int - 'a' as int + 26
    else if '0' <= c <= '9' then c as int - '0' as int + 52
    else if c == '+' then 62
    else if c == '/' then 63
    else -1
  }

  /** The four digits of three bytes. */
  function Quad(a: char, b: char, c: char): (q: string)
    requires a < '\U{100}' && b < '\U{100}' && c < '\U{100}'
    ensures |q| == 4
  {
    [ Digit64(a as int / 4),
      Digit64(a as int % 4 * 16 + b as int / 16),
      Digit64(b as int % 16 * 4 + c as int / 64),
      Digit64(c as int % 64)]
  }

  /** `base64.StdEncoding` */
  function EncodeBase64(s: Bytes): string {
    if s == [] then []
    else if |s| == 1 then Quad(s[0], '\0', '\0')[..2] + "=="
    else if |s| == 2 then Quad(s[0], s[1], '\0')[..3] + "="
    else Quad(s[0], s[1], s[2]) + EncodeBase64(s[3..])
  }

  ghost predicate InAlphabet(c: char) { Value64(c) >= 0 || c == '=' }

  lemma {:induction false} EncodedInAlphabet(s: Bytes)
    ensures AllInAlphabet(EncodeBase64(s))
  {
    hide Quad;
    if |s| > 2 {
      QuadInAlphabet(s[0], s[1], s[2]);
      EncodedInAlphabet(s[3..]);
    } else if s != [] {
      QuadInAlphabet(s[0], if |s| == 2 then s[1] else '\0', '\0');
    }
  }

  lemma QuadInAlphabet(a: char, b: char, c: char)
    requires a < '\U{100}' && b < '\U{100}' && c < '\U{100}'
    ensures AllInAlphabet(Quad(a, b, c))
  {}

  /** A decoder: characters outside the alphabet are ignored, then groups of four are read. */
  ghost function DecodeBase64(s: string): Option<string> { DecodeGroups(Kept(s)) }

  ghost function Kept(s: string): string {
    if s == [] then [] else (if InAlphabet(s[0]) then [s[0]] else []) + Kept(s[1..])
  }

  ghost function DecodeGroups(s: string): Option<string> {
    if s == [] then Some([])
    else if |s| < 4 || Value64(s[0]) < 0 || Value64(s[1]) < 0 then None
    else
      var first := FirstByte(Value64(s[0]), Value64(s[1]));
      if s[2] == '=' then
        if s[3] == '=' && |s| == 4 then Some([first]) else None
      else if Value64(s[2]) < 0 then None
      else
        var second := SecondByte(Value64(s[1]), Value64(s[2]));
        if s[3] == '=' then
          if |s| == 4 then Some([first, second]) else None
        else if Value64(s[3]) < 0 then None
        else
          match DecodeGroups(s[4..])
          case None => None
          case Some(rest) => Some([first, second, ThirdByte(Value64(s[2]), Value64(s[3]))] + rest)
  }

  ghost function FirstByte(p: int, q: int): char
    requires 0 <= p < 64 && 0 <= q < 64
  {
    (p * 4 + q / 16) as char
  }

  ghost function SecondByte(p: int, q: int): char
    requires 0 <= p < 64 && 0 <= q < 64
  {
    (p % 16 * 16 + q / 4) as char
  }

  ghost function ThirdByte(p: int, q: int): char
    requires 0 <= p < 64 && 0 <= q < 64
  {
    (p % 4 * 64 + q) as char
  }

  lemma QuadDecodes(a: char, b: char, c: char)
    requires a < '\U{100}' && b < '\U{100}' && c < '\U{100}'
    ensures var q := Quad(a, b, c);
            && (forall i :: 0 <= i < 4 ==> Value64(q[i]) >= 0 && q[i] != '=')
            && FirstByte(Value64(q[0]), Value64(q[1])) == a
            && SecondByte(Value64(q[1]), Value64(q[2])) == b
            && ThirdByte(Value64(q[2]), Value64(q[3])) == c
  {}

  lemma QuadThenRest(a: char, b: char, c: char, tail: string)
    requires a < '\U{100}' && b < '\U{100}' && c < '\U{100}' && DecodeGroups(tail).Some?
    ensures DecodeGroups(Quad(a, b, c) + tail) == Some([a, b, c] + DecodeGroups(tail).value)
  {
    hide Quad, Value64, FirstByte, SecondByte, ThirdByte;
    QuadDecodes(a, b, c);
    assert (Quad(a, b, c) + tail)[4..] == tail;
  }

  lemma PaddedGroups(a: char, b: char)
    requires a < '\U{100}' && b < '\U{100}'
    ensures DecodeGroups(Quad(a, '\0', '\0')[..2] + "==") == Some([a])
    ensures DecodeGroups(Quad(a, b, '\0')[..3] + "=") == Some([a, b])
  {
    hide Quad, Value64, FirstByte, SecondByte, ThirdByte;
    QuadDecodes(a, '\0', '\0');
    QuadDecodes(a, b, '\0');
  }

  lemma {:induction false} Base64RoundTrip(s: Bytes)
    ensures DecodeGroups(EncodeBase64(s)) == Some(s)
  {
    hide Quad, DecodeGroups;
    if s == [] {
      NoGroups();
    } else if |s| == 1 {
      PaddedGroups(s[0], '\0');
      assert s == [s[0]];
    } else if |s| == 2 {
      PaddedGroups(s[0], s[1]);
      assert s == [s[0], s[1]];
    } else {
      Base64RoundTrip(s[3..]);
      QuadThenRest(s[0], s[1], s[2], EncodeBase64(s[3..]));
      assert s == [s[0], s[1], s[2]] + s[3..];
    }
  }

  lemma NoGroups()
    ensures DecodeGroups([]) == Some([])
  {}

  /* ---------- wrapping at 76 columns ---------- */

  const LINE_LENGTH := 76

  function Chunks(enc: string): seq<string> {
    if enc == [] then [] else if |enc| <= LINE_LENGTH then [enc] else [enc[..LINE_LENGTH]] + Chunks(enc[LINE_LENGTH..])
  }

  /** The lines, each with its line ending. */
  function Ended(lines: seq<string>): string {
    if lines == [] then "" else lines[0] + "\r\n" + Ended(lines[1..])
  }

  ghost function Concat(parts: seq<string>): string { if parts == [] then "" else parts[0] + Concat(parts[1..]) }

  /** No line is longer than 76 characters, none is empty, and together they are the encoded text. */
  lemma {:induction false} ChunksAreShort(enc: string)
    ensures Concat(Chunks(enc)) == enc
    ensures forall i :: 0 <= i < |Chunks(enc)| ==> 0 < |Chunks(enc)[i]| <= 76
    ensures forall i :: 0 <= i < |Chunks(enc)| - 1 ==> |Chunks(enc)[i]| == 76
    ensures forall i, c :: 0 <= i < |Chunks(enc)| && c in Chunks(enc)[i] ==> c in enc
  {
    if |enc| > LINE_LENGTH {
      var rest := enc[LINE_LENGTH..];
      ChunksAreShort(rest);
      assert Chunks(enc)[1..] == Chunks(rest);
      assert enc == enc[..LINE_LENGTH] + rest;
    }
  }

  /** wrapBase64 */
  method WrapBase64(s: Bytes) returns (b: string)
    ensures b == Ended(Chunks(EncodeBase64(s)))
  {
    hide EncodeBase64;
    var enc := EncodeBase64(s);
    b := "";
    var i := 0;
    while i < |enc|
      invariant 0 <= i
      invariant i <= |enc| ==> b + Ended(Chunks(enc[i..])) == Ended(Chunks(enc))
      invariant i > |enc| ==> b == Ended(Chunks(enc))
    {
      var end := if i + LINE_LENGTH < |enc| then i + LINE_LENGTH else |enc|;
      NextChunk(enc, i);
      b := b + enc[i..end];
      b := b + "\r\n";
      i := i + LINE_LENGTH;
    }
    if i <= |enc| { assert enc[i..] == []; }
  }

  lemma NextChunk(enc: string, i: nat)
    requires i < |enc|
    ensures if i + LINE_LENGTH < |enc|
            then Ended(Chunks(enc[i..])) == enc[i..i + LINE_LENGTH] + "\r\n" + Ended(Chunks(enc[i + LINE_LENGTH..]))
            else Ended(Chunks(enc[i..])) == enc[i..|enc|] + "\r\n"
    ensures i + LINE_LENGTH == |enc| ==> Ended(Chunks(enc[i + LINE_LENGTH..])) == ""
  {}

  lemma KeptHead(c: char, s: string)
    ensures Kept([c] + s) == (if InAlphabet(c) then [c] else []) + Kept(s)
  {}

  lemma {:induction false} KeptConcat(a: string, b: string)
    ensures Kept(a + b) == Kept(a) + Kept(b)
  {
    hide InAlphabet, Kept;
    if a == [] {
      NothingKept();
      assert a + b == b;
    } else {
      assert a + b == [a[0]] + (a[1..] + b);
      KeptHead(a[0], a[1..] + b);
      KeptHead(a[0], a[1..]);
      assert a == [a[0]] + a[1..];
      KeptConcat(a[1..], b);
    }
  }

  ghost predicate AllInAlphabet(s: string) { forall c :: c in s ==> InAlphabet(c) }

  lemma {:induction false} KeptAll(s: string)
    requires AllInAlphabet(s)
    ensures Kept(s) == s
  {
    if s != [] {
      assert s[0] in s;
      KeptAll(s[1..]);
    }
  }

  lemma {:induction false} KeptLines(lines: seq<string>)
    requires forall i :: 0 <= i < |lines| ==> AllInAlphabet(lines[i])
    ensures Kept(Ended(lines)) == Concat(lines)
  {
    hide InAlphabet, AllInAlphabet, Kept;
    if lines == [] {
      NothingKept();
    } else {
      KeptLines(lines[1..]);
      KeptConcat(lines[0] + "\r\n", Ended(lines[1..]));
      KeptConcat(lines[0], "\r\n");
      KeptAll(lines[0]);
      LineEndDropped();
      assert lines[0] + "" == lines[0];
    }
  }

  lemma NothingKept()
    ensures Kept("") == ""
  {}

  lemma LineEndDropped()
    ensures Kept("\r\n") == ""
  {}

  /** Wrapped text decodes to what was encoded. */
  lemma WrappedRoundTrip(s: Bytes)
    ensures DecodeBase64(Ended(Chunks(EncodeBase64(s)))) == Some(s)
  {
    hide EncodeBase64, InAlphabet, Ended, Chunks;
    var enc := EncodeBase64(s);
    EncodedInAlphabet(s);
    ChunksAreShort(enc);
    var lines := Chunks(enc);
    KeptLines(lines);
    Base64RoundTrip(s);
  }

  /* ---------- the multipart writer (RFC 2046, section 5.1) ---------- */

  const BOUNDARY := "luncur-boundary"
  const DELIMITER := "\r\n--" + BOUNDARY

  function Opening(first: bool): string { if first then "--" + BOUNDARY else DELIMITER }

  const BASE64_FIELD := "Content-Transfer-Encoding: base64"
  const TEXT_FIELD := "Content-Type: text/plain; charset=utf-8"
  const HTML_FIELD := "Content-Type: text/html; charset=utf-8"

  /** Go's multipart.Writer over a buffer. */
  class MultipartWriter {
    var out: string
    var parts: nat

    constructor ()
      ensures out == "" && parts == 0
    {
      out := "";
      parts := 0;
    }

    /** Starts a part; the fields are given in the order of their names. */
    method CreatePart(fields: seq<string>)
      modifies this
      ensures out == old(out) + Opening(old(parts) == 0) + "\r\n" + Ended(fields) + "\r\n"
      ensures parts == old(parts) + 1
    {
      hide Opening;
      out := out + Opening(parts == 0) + "\r\n";
      label start:
      assert fields[0..] == fields;
      for i := 0 to |fields|
        invariant out + Ended(fields[i..]) == old@start(out) + Ended(fields) && parts == old(parts)
      {
        assert fields[i..][1..] == fields[i + 1..];
        out := out + fields[i] + "\r\n";
      }
      assert fields[|fields|..] == [] && out + "" == out;
      out := out + "\r\n";
      parts := parts + 1;
    }

    method Write(s: string)
      modifies this
      ensures out == old(out) + s && parts == old(parts)
    {
      out := out + s;
    }

    method Close()
      modifies this
      ensures out == old(out) + DELIMITER + "--\r\n"
    {
      out := out + DELIMITER + "--\r\n";
    }

    /** writeBase64Part */
    method WriteBase64Part(contentType: string, content: Bytes)
      modifies this
      ensures out == old(out) + Opening(old(parts) == 0) + PartText(contentType, content)
      ensures parts == old(parts) + 1
    {
      hide EncodeBase64, Chunks, Ended, Opening;
      CreatePart([BASE64_FIELD, contentType]);
      var wrapped := WrapBase64(content);
      PartLines([BASE64_FIELD, contentType], wrapped);
      Write(wrapped);
    }
  }

  /** A part, from the end of its delimiter line on. */
  ghost function PartText(contentType: string, content: Bytes): string {
    Ended([""] + [BASE64_FIELD, contentType] + [""] + Chunks(EncodeBase64(content)))
  }

  lemma {:induction false} EndedConcat(a: seq<string>, b: seq<string>)
    ensures Ended(a + b) == Ended(a) + Ended(b)
  {
    if a == [] {
      assert a + b == b;
    } else {
      assert (a + b)[1..] == a[1..] + b;
      EndedConcat(a[1..], b);
    }
  }

  lemma PartLines(fields: seq<string>, body: string)
    ensures forall chunks :: body == Ended(chunks) ==>
              Ended([""] + fields + [""] + chunks) == "\r\n" + Ended(fields) + "\r\n" + body
  {
    forall chunks | body == Ended(chunks)
      ensures Ended([""] + fields + [""] + chunks) == "\r\n" + Ended(fields) + "\r\n" + body
    {
      EndedConcat([""] + fields + [""], chunks);
      EndedConcat([""] + fields, [""]);
      EndedConcat([""], fields);
      assert Ended([""]) == "\r\n";
    }
  }

  /* ---------- messages ---------- */

  ghost function MultipartBody(text: Bytes, html: Bytes): string {
    Opening(true) + PartText(TEXT_FIELD, text) + Opening(false) + PartText(HTML_FIELD, html) + DELIMITER + "--\r\n"
  }

  const MULTIPART_FIELD := "Content-Type: multipart/alternative; " + ("boundary=\"" + BOUNDARY + "\"")

  ghost function HeaderFields(from: string, to: string, subject: string, contentType: string): seq<string> {
    ["From: " + from, "To: " + to, "Subject: " + subject, "MIME-Version: 1.0", contentType]
  }

  ghost function MessageText(from: string, to: string, subject: string, text: Bytes, html: Bytes): string {
    Ended(HeaderFields(from, to, subject, if html == "" then TEXT_FIELD else MULTIPART_FIELD)) + "\r\n"
    + if html == "" then NormalizeCRLF(text) else MultipartBody(NormalizeCRLF(text), NormalizeCRLF(html))
  }

  /** Message */
  method Message(from: string, to: string, subject: string, text: Bytes, html: Bytes) returns (m: string)
    ensures m == MessageText(from, to, subject, text, html)
  {
    hide NormalizeCRLF, PartText, Ended, Opening;
    var normal := NormalizeCRLF(text);
    var header :=
      "From: " + from + "\r\n" + ("To: " + to) + "\r\n" + ("Subject: " + subject) + "\r\n"
      + "MIME-Version: 1.0" + "\r\n";
    if html == "" {
      HeaderIsEnded(from, to, subject, TEXT_FIELD);
      return header + TEXT_FIELD + "\r\n" + "\r\n" + normal;
    }
    var normalHtml := NormalizeCRLF(html);
    var mw := new MultipartWriter();
    mw.WriteBase64Part(TEXT_FIELD, normal);
    mw.WriteBase64Part(HTML_FIELD, normalHtml);
    mw.Close();
    HeaderIsEnded(from, to, subject, MULTIPART_FIELD);
    assert "" + Opening(true) == Opening(true);
    return header + MULTIPART_FIELD + "\r\n" + "\r\n" + mw.out;
  }

  lemma HeaderIsEnded(from: string, to: string, subject: string, contentType: string)
    ensures "From: " + from + "\r\n" + ("To: " + to) + "\r\n" + ("Subject: " + subject) + "\r\n"
            + "MIME-Version: 1.0" + "\r\n" + contentType + "\r\n"
         == Ended(HeaderFields(from, to, subject, contentType))
  {
    EndedFive("From: " + from, "To: " + to, "Subject: " + subject, "MIME-Version: 1.0", contentType);
  }

  lemma EndedFive(a: string, b: string, c: string, d: string, e: string)
    ensures Ended([a, b, c, d, e]) == a + "\r\n" + b + "\r\n" + c + "\r\n" + d + "\r\n" + e + "\r\n"
  {
    hide Ended;
    assert [a, b, c, d, e] == [a, b, c, d] + [e] && [a, b, c, d] == [a, b, c] + [d];
    assert [a, b, c] == [a, b] + [c] && [a, b] == [a] + [b];
    EndedConcat([a, b, c, d], [e]);
    EndedConcat([a, b, c], [d]);
    EndedConcat([a, b], [c]);
    EndedConcat([a], [b]);
    EndedOne(a);
    EndedOne(b);
    EndedOne(c);
    EndedOne(d);
    EndedOne(e);
  }

  lemma EndedOne(a: string)
    ensures Ended([a]) == a + "\r\n"
  {}

  /* ---------- reading a message back ---------- */

  datatype Part = Part(fields: seq<string>, content: string)

  /** Header fields and body of an entity: up to the first empty line, and after it. */
  ghost function ReadEntity(s: string): Option<Part> {
    var i := Find(s, "\r\n\r\n");
    if i == -1 then None else Some(Part(SplitOn(s[..i], "\r\n"), s[i + 4..]))
  }

  /** One body part: its delimiter line ends here, then comes an entity, decoded if it says so. */
  ghost function ReadPart(piece: string): Option<Part> {
    if !("\r\n" <= piece) then None
    else
      match ReadEntity(piece[2..])
      case None => None
      case Some(Part(fields, body)) =>
        if "Content-Transfer-Encoding: base64" !in fields then Some(Part(fields, body))
        else
          match DecodeBase64(body)
          case None => None
          case Some(content) => Some(Part(fields, content))
  }

  ghost function ReadParts(pieces: seq<string>): Option<seq<Part>> {
    if pieces == [] then Some([])
    else
      match (ReadPart(pieces[0]), ReadParts(pieces[1..]))
      case (Some(p), Some(ps)) => Some([p] + ps)
      case _ => None
  }

  /** A multipart body with this boundary: cut at the delimiter lines; the first piece is a preamble, the last
      follows the closing delimiter. */
  ghost function ReadMultipart(boundary: string, body: string): Option<seq<Part>> {
    var pieces := SplitOn("\r\n" + body, "\r\n--" + boundary);
    if |pieces| < 2 || !("--" <= pieces[|pieces| - 1]) then None
    else ReadParts(pieces[1..|pieces| - 1])
  }

  ghost predicate LineFree(s: string) { '\r' !in s && '\n' !in s }

  /** No line starts with a dash. */
  ghost predicate Quiet(s: string) { forall i :: 0 <= i && i + 1 < |s| && s[i] == '\n' ==> s[i + 1] != '-' }

  lemma {:induction false} LinesQuiet(lines: seq<string>)
    requires forall i :: 0 <= i < |lines| ==> LineFree(lines[i]) && (lines[i] != [] ==> lines[i][0] != '-')
    ensures Quiet(Ended(lines)) && (lines != [] ==> Ended(lines)[0] != '-')
  {
    if lines != [] {
      LinesQuiet(lines[1..]);
    }
  }

  lemma DelimiterAt(s: string, i: nat)
    requires OccursAt(s, DELIMITER, i)
    ensures i + 2 < |s| && s[i + 1] == '\n' && s[i + 2] == '-'
  {}

  /** Text without a line that starts with a dash ends at the next delimiter. */
  lemma CutAtDelimiter(a: string, rest: string)
    requires Quiet(a)
    ensures SplitOn(a + (DELIMITER + rest), DELIMITER) == [a] + SplitOn(rest, DELIMITER)
  {
    var s := a + (DELIMITER + rest);
    assert DELIMITER[0] == '\r';
    assert s[|a|] == '\r';
    assert forall k :: 0 <= k < |a| ==> s[k] == a[k];
    forall i | 0 <= i < |a| ensures !OccursAt(s, DELIMITER, i) {
      if OccursAt(s, DELIMITER, i) { DelimiterAt(s, i); }
    }
    SplitAfter(a, DELIMITER, rest);
  }

  ghost function JoinLines(lines: seq<string>): string
    requires lines != []
  {
    if |lines| == 1 then lines[0] else lines[0] + ("\r\n" + JoinLines(lines[1..]))
  }

  lemma {:induction false} EndedIsJoin(lines: seq<string>)
    requires lines != []
    ensures Ended(lines) == JoinLines(lines) + "\r\n"
  {
    if |lines| == 1 {
      assert lines == [lines[0]];
      EndedOne(lines[0]);
    } else {
      EndedIsJoin(lines[1..]);
      var rest := JoinLines(lines[1..]);
      assert lines[0] + "\r\n" + (rest + "\r\n") == lines[0] + ("\r\n" + rest) + "\r\n";
    }
  }

  /** No CRLF inside. */
  ghost predicate OneLine(s: string) { forall i :: 0 <= i && i + 1 < |s| && s[i] == '\r' ==> s[i + 1] != '\n' }

  lemma CRLFAt(s: string, i: nat)
    requires OccursAt(s, "\r\n", i)
    ensures i + 1 < |s| && s[i] == '\r' && s[i + 1] == '\n'
  {}

  lemma NoBreakInside(a: string, rest: string)
    requires OneLine(a) && (rest == [] || rest[0] == '\r')
    ensures forall i :: 0 <= i < |a| ==> !OccursAt(a + rest, "\r\n", i)
  {
    var s := a + rest;
    assert forall k :: 0 <= k < |a| ==> s[k] == a[k];
    assert rest != [] ==> s[|a|] == '\r';
    forall i | 0 <= i < |a| ensures !OccursAt(s, "\r\n", i) {
      if OccursAt(s, "\r\n", i) { CRLFAt(s, i); }
    }
  }

  lemma {:induction false} SplitJoinLines(lines: seq<string>)
    requires lines != [] && forall i :: 0 <= i < |lines| ==> OneLine(lines[i])
    ensures SplitOn(JoinLines(lines), "\r\n") == lines
  {
    hide OneLine;
    if |lines| == 1 {
      NoBreakInside(lines[0], "");
      assert lines[0] + "" == lines[0];
      NotFoundAnywhere(lines[0], "\r\n");
    } else {
      var rest := JoinLines(lines[1..]);
      NoBreakInside(lines[0], "\r\n" + rest);
      SplitAfter(lines[0], "\r\n", rest);
      SplitJoinLines(lines[1..]);
      assert lines == [lines[0]] + lines[1..];
    }
  }

  /** A line of a header: it has a name, and no CRLF. */
  ghost predicate HeaderLine(s: string) { OneLine(s) && s != [] && s[0] != '\r' && s[0] != '\n' }

  /** After every CRLF there is something other than a carriage return. */
  ghost predicate NoEmptyLine(s: string) {
    forall i :: 0 <= i && i + 1 < |s| && s[i] == '\r' && s[i + 1] == '\n' ==> i + 2 < |s| && s[i + 2] != '\r'
  }

  lemma {:induction false} JoinedNoEmptyLine(lines: seq<string>)
    requires lines != [] && forall i :: 0 <= i < |lines| ==> HeaderLine(lines[i])
    ensures NoEmptyLine(JoinLines(lines)) && JoinLines(lines) != [] && JoinLines(lines)[0] != '\r'
  {
    if |lines| > 1 {
      var l, rest := lines[0], JoinLines(lines[1..]);
      JoinedNoEmptyLine(lines[1..]);
      assert l + ("\r\n" + rest) == l + "\r\n" + rest;
    }
  }

  lemma EmptyLineAt(s: string, i: nat)
    requires OccursAt(s, "\r\n\r\n", i)
    ensures i + 2 < |s| && s[i] == '\r' && s[i + 1] == '\n' && s[i + 2] == '\r'
  {}

  lemma EmptyLineBetween(h: string, body: string)
    ensures h + "\r\n" + "\r\n" + body == h + ("\r\n\r\n" + body)
  {}

  /** Header lines followed by an empty line are read back, and so is what follows. */
  lemma EntityReadsBack(lines: seq<string>, body: string)
    requires lines != [] && forall i :: 0 <= i < |lines| ==> HeaderLine(lines[i])
    ensures ReadEntity(Ended(lines) + "\r\n" + body) == Some(Part(lines, body))
  {
    hide Find, SplitOn, JoinLines, Ended, OneLine;
    var h, sep := JoinLines(lines), "\r\n\r\n";
    EndedIsJoin(lines);
    JoinedNoEmptyLine(lines);
    SplitJoinLines(lines);
    var s := Ended(lines) + "\r\n" + body;
    EmptyLineBetween(h, body);
    assert forall k :: 0 <= k < |h| ==> s[k] == h[k];
    assert s[|h|] == '\r';
    forall i | 0 <= i < |h| ensures !OccursAt(s, sep, i) {
      if OccursAt(s, sep, i) { EmptyLineAt(s, i); }
    }
    FindAfter(h, sep, body);
    assert s[..|h|] == h && s[|h| + 4..] == body;
  }

  ghost predicate FieldLine(s: string) { LineFree(s) && s != [] && s[0] != '-' }

  lemma FixedFields()
    ensures FieldLine(BASE64_FIELD) && FieldLine(TEXT_FIELD) && FieldLine(HTML_FIELD) && FieldLine(MULTIPART_FIELD)
  {
    HtmlField();
    MultipartField();
  }

  lemma HtmlField()
    ensures FieldLine(HTML_FIELD)
  {}

  lemma MultipartField()
    ensures FieldLine(MULTIPART_FIELD)
  {
    hide LineFree;
    Joined("Content-Type: multipart/alternative; ", "boundary=\"" + BOUNDARY + "\"");
  }

  lemma MultipartFieldIs()
    ensures MULTIPART_FIELD == "Content-Type: multipart/alternative; boundary=\"luncur-boundary\""
  {}

  lemma Joined(a: string, b: string)
    requires FieldLine(a) && LineFree(b)
    ensures FieldLine(a + b)
  {}

  lemma PartReadsBack(field: string, content: Bytes)
    requires FieldLine(field)
    ensures ReadPart(PartText(field, content)) == Some(Part([BASE64_FIELD, field], content))
  {
    hide ReadEntity, Ended, Chunks, EncodeBase64, DecodeBase64;
    FixedFields();
    var chunks := Chunks(EncodeBase64(content));
    var fields := [BASE64_FIELD, field];
    var body := Ended(chunks);
    PartLines(fields, body);
    var text := PartText(field, content);
    assert text == "\r\n" + Ended(fields) + "\r\n" + body;
    assert text[2..] == Ended(fields) + "\r\n" + body;
    EntityReadsBack(fields, body);
    WrappedRoundTrip(content);
    assert BASE64_FIELD == fields[0];
  }

  lemma PartQuiet(field: string, content: Bytes)
    requires FieldLine(field)
    ensures Quiet(PartText(field, content))
  {
    hide Ended, Chunks, EncodeBase64, InAlphabet, Quiet;
    FixedFields();
    var enc := EncodeBase64(content);
    var chunks := Chunks(enc);
    EncodedInAlphabet(content);
    ChunksAreShort(enc);
    forall i | 0 <= i < |chunks| ensures LineFree(chunks[i]) && chunks[i][0] != '-' {
      ChunkIsPlain(enc, chunks[i]);
    }
    LinesQuiet([""] + [BASE64_FIELD, field] + [""] + chunks);
  }

  lemma ChunkIsPlain(enc: string, chunk: string)
    requires AllInAlphabet(enc) && forall c :: c in chunk ==> c in enc
    ensures LineFree(chunk) && '-' !in chunk
  {}

  ghost function TwoParts(text: string, html: string): seq<Part> {
    [Part(["Content-Transfer-Encoding: base64", "Content-Type: text/plain; charset=utf-8"], text),
     Part(["Content-Transfer-Encoding: base64", "Content-Type: text/html; charset=utf-8"], html)]
  }

  /** Whatever the texts contain, the reader finds exactly the two parts and decodes them. */
  lemma MultipartReadsBack(text: Bytes, html: Bytes)
    ensures SplitOn("\r\n" + MultipartBody(text, html), DELIMITER)
         == ["", PartText(TEXT_FIELD, text), PartText(HTML_FIELD, html), "--\r\n"]
    ensures ReadMultipart("luncur-boundary", MultipartBody(text, html)) == Some(TwoParts(text, html))
  {
    hide PartText, SplitOn, ReadPart, Quiet;
    var p, q, close := PartText(TEXT_FIELD, text), PartText(HTML_FIELD, html), "--\r\n";
    FixedFields();
    PartQuiet(TEXT_FIELD, text);
    PartQuiet(HTML_FIELD, html);
    BodyShape(p, q);
    CutAtDelimiter("", p + (DELIMITER + (q + (DELIMITER + close))));
    CutAtDelimiter(p, q + (DELIMITER + close));
    CutAtDelimiter(q, close);
    ClosingPiece();
    PartReadsBack(TEXT_FIELD, text);
    PartReadsBack(HTML_FIELD, html);
    var pieces := SplitOn("\r\n" + MultipartBody(text, html), DELIMITER);
    assert pieces == ["", p, q, close];
    assert pieces[1..3] == [p, q];
    assert "--" <= close;
    ReadTwo(p, q);
  }

  lemma ReadTwo(p: string, q: string)
    requires ReadPart(p).Some? && ReadPart(q).Some?
    ensures ReadParts([p, q]) == Some([ReadPart(p).value, ReadPart(q).value])
  {
    hide ReadPart;
    assert [p, q][1..] == [q] && [q][1..] == [];
    assert ReadParts([]) == Some([]);
    assert [ReadPart(q).value] + [] == [ReadPart(q).value];
    assert ReadParts([q]) == Some([ReadPart(q).value]);
    assert [ReadPart(p).value] + [ReadPart(q).value] == [ReadPart(p).value, ReadPart(q).value];
  }

  lemma ClosingPiece()
    ensures SplitOn("--\r\n", DELIMITER) == ["--\r\n"]
  {}

  lemma BodyShape(p: string, q: string)
    ensures "\r\n" + (Opening(true) + p + Opening(false) + q + DELIMITER + "--\r\n")
         == "" + (DELIMITER + (p + (DELIMITER + (q + (DELIMITER + "--\r\n")))))
  {
    var tail := DELIMITER + "--\r\n";
    assert "\r\n" + Opening(true) == DELIMITER && Opening(false) == DELIMITER;
    assert Opening(true) + p + Opening(false) + q + DELIMITER + "--\r\n"
        == Opening(true) + (p + (DELIMITER + (q + tail)));
  }

  /** A message whose header values have no CRLF inside is read back: its five header fields, and the two
      normalised texts (or the one, when there is no html). With a CRLF in a value, the header that is read
      is not the one that was meant. */
  lemma MessageReadsBack(from: string, to: string, subject: string, text: Bytes, html: Bytes)
    ensures var read := ReadEntity(MessageText(from, to, subject, text, html));
            var contentType := if html == "" then "Content-Type: text/plain; charset=utf-8"
                               else "Content-Type: multipart/alternative; boundary=\"luncur-boundary\"";
            var fields := ["From: " + from, "To: " + to, "Subject: " + subject, "MIME-Version: 1.0", contentType];
            && (OneLine(from) && OneLine(to) && OneLine(subject) <==> read.Some? && read.value.fields == fields)
            && (OneLine(from) && OneLine(to) && OneLine(subject) && html == "" ==>
                  read.value.content == NormalizeCRLF(text))
            && (OneLine(from) && OneLine(to) && OneLine(subject) && html != "" ==>
                  ReadMultipart("luncur-boundary", read.value.content)
                  == Some(TwoParts(NormalizeCRLF(text), NormalizeCRLF(html))))
  {
    hide ReadMultipart, MultipartBody, NormalizeCRLF, Ended, OneLine, ReadEntity;
    MultipartFieldIs();
    var m := MessageText(from, to, subject, text, html);
    var fields := HeaderFields(from, to, subject, if html == "" then TEXT_FIELD else MULTIPART_FIELD);
    var body := if html == "" then NormalizeCRLF(text) else MultipartBody(NormalizeCRLF(text), NormalizeCRLF(html));
    if OneLine(from) && OneLine(to) && OneLine(subject) {
      FixedFields();
      HeaderReadsBack(from, to, subject, fields[4], body);
      if html != "" { MultipartReadsBack(NormalizeCRLF(text), NormalizeCRLF(html)); }
    }
    if ReadEntity(m).Some? && ReadEntity(m).value.fields == fields {
      ReadFieldsAreOneLine(m, from, to, subject);
    }
  }

  lemma HeaderReadsBack(from: string, to: string, subject: string, contentType: string, body: string)
    requires OneLine(from) && OneLine(to) && OneLine(subject) && FieldLine(contentType)
    ensures var fields := HeaderFields(from, to, subject, contentType);
            ReadEntity(Ended(fields) + "\r\n" + body) == Some(Part(fields, body))
  {
    hide Ended, OneLine, ReadEntity;
    FieldIsHeaderLine(contentType);
    Labelled("From: ", from);
    Labelled("To: ", to);
    Labelled("Subject: ", subject);
    VersionField();
    EntityReadsBack(HeaderFields(from, to, subject, contentType), body);
  }

  lemma ReadFieldsAreOneLine(m: string, from: string, to: string, subject: string)
    requires ReadEntity(m).Some?
    requires var fields := ReadEntity(m).value.fields;
             "From: " + from in fields && "To: " + to in fields && "Subject: " + subject in fields
    ensures OneLine(from) && OneLine(to) && OneLine(subject)
  {
    hide OneLine, Find, SplitOn;
    PiecesAreOneLine(m[..Find(m, "\r\n\r\n")]);
    LabelDropped("From: ", from);
    LabelDropped("To: ", to);
    LabelDropped("Subject: ", subject);
  }

  lemma VersionField()
    ensures HeaderLine("MIME-Version: 1.0")
  {}

  lemma FieldIsHeaderLine(s: string)
    requires FieldLine(s)
    ensures HeaderLine(s)
  {}

  lemma Labelled(name: string, value: string)
    requires name in ["From: ", "To: ", "Subject: "] && OneLine(value)
    ensures HeaderLine(name + value)
  {}

  lemma LabelDropped(name: string, value: string)
    requires OneLine(name + value)
    ensures OneLine(value)
  {
    var s := name + value;
    forall i | 0 <= i && i + 1 < |value| && value[i] == '\r' ensures value[i + 1] != '\n' {
      assert s[|name| + i] == value[i] && s[|name| + i + 1] == value[i + 1];
    }
  }

  lemma {:induction false} PiecesAreOneLine(s: string)
    ensures forall p :: p in SplitOn(s, "\r\n") ==> OneLine(p)
    decreases |s|
  {
    hide OneLine, Find;
    FirstCRLF(s);
    var i := Find(s, "\r\n");
    if i != -1 { PiecesAreOneLine(s[i + 2..]); }
  }

  lemma {:induction false} FirstCRLF(s: string)
    ensures var i := Find(s, "\r\n"); OneLine(if i == -1 then s else s[..i])
  {
    if |s| >= 2 && s[..2] != "\r\n" {
      FirstCRLF(s[1..]);
      var i := Find(s[1..], "\r\n");
      var rest := if i == -1 then s[1..] else s[1..][..i];
      assert (if i == -1 then s else s[..i + 1]) == [s[0]] + rest;
      assert s[..2] == [s[0], s[1]];
    }
  }
}

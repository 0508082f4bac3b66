/**
 Text extraction from OpenAI-style server-sent events (api/routes/compat_chat.py). A chunk is
 its decoded text; JSON decoding is a parameter. The line rules are a simplified form of
 section 9.2 (Server-sent events) of the WHATWG HTML Standard: only `data:` lines matter.
 */
module SseText {
  import opened Wrappers
  import opened Sequences

  datatype Json =
    | Null
    | Bool(b: bool)
    | Number(n: real)
    | Str(s: string)
    | Arr(items: seq<Json>)
    | Obj(fields: map<string, Json>)

  /** What a decoder makes of the text after `data:`; None stands for a decoding error. */
  type Decoder = string -> Option<Json>

  /** Extracted content, or the exception of iterating over something that is not iterable. */
  datatype Parsed = Raised | Parts(parts: seq<string>)

  function Join(a: Parsed, b: Parsed): Parsed {
    if a.Raised? || b.Raised? then Raised else Parts(a.parts + b.parts)
  }

  // ---------- lines ----------

  /** The characters `str.splitlines` breaks at. */
  predicate IsBreak(c: char) {
    c in {'\n', '\r', '\U{0B}', '\U{0C}', '\U{1C}', '\U{1D}', '\U{1E}', '\U{85}', '\U{2028}', '\U{2029}'}
  }

  predicate IsSpace(c: char) {
    || IsBreak(c)
    || c in {' ', '\t', '\U{1F}', '\U{A0}', '\U{1680}', '\U{202F}', '\U{205F}', '\U{3000}'}
    || '\U{2000}' <= c <= '\U{200A}'
  }

  /** Position of the first break, or the length. */
  function LineEnd(s: string): (n: nat)
    ensures n <= |s| && (n < |s| ==> IsBreak(s[n]))
    ensures forall k :: 0 <= k < n ==> !IsBreak(s[k])
  {
    if s == "" || IsBreak(s[0]) then 0 else 1 + LineEnd(s[1..])
  }

  /** A CR LF pair is one break. */
  function BreakWidth(s: string, n: nat): (w: nat)
    requires n < |s|
    ensures 1 <= w && n + w <= |s|
  {
    if s[n] == '\r' && n + 1 < |s| && s[n + 1] == '\n' then 2 else 1
  }

  function SplitLines(s: string): seq<string>
    decreases |s|
  {
    if s == "" then []
    else
      var n := LineEnd(s);
      if n == |s| then [s] else [s[..n]] + SplitLines(s[n + BreakWidth(s, n)..])
  }

  predicate EndsAtBreak(s: string) {
    s == "" || IsBreak(s[|s| - 1])
  }

  predicate CutsCrLf(a: string, b: string) {
    a != "" && b != "" && a[|a| - 1] == '\r' && b[0] == '\n'
  }

  lemma LineEndIs(s: string, n: nat)
    requires n <= |s| && (n < |s| ==> IsBreak(s[n])) && forall k :: 0 <= k < n ==> !IsBreak(s[k])
    ensures LineEnd(s) == n
  {
  }

  lemma SplitFirst(s: string, n: nat)
    requires n < |s| && IsBreak(s[n]) && forall k :: 0 <= k < n ==> !IsBreak(s[k])
    ensures SplitLines(s) == [s[..n]] + SplitLines(s[n + BreakWidth(s, n)..])
  {
    hide IsBreak;
    LineEndIs(s, n);
  }

  lemma FirstBreak(s: string) returns (n: nat)
    requires s != "" && EndsAtBreak(s)
    ensures n < |s| && IsBreak(s[n]) && forall k :: 0 <= k < n ==> !IsBreak(s[k])
    ensures var rest := s[n + BreakWidth(s, n)..];
            && EndsAtBreak(rest)
            && (rest != "" ==> rest[|rest| - 1] == s[|s| - 1])
            && (rest == "" && s[|s| - 1] == '\r' ==> n == |s| - 1)
  {
    hide IsBreak;
    n := LineEnd(s);
    assert !IsBreak(s[|s| - 1]) || n < |s|;
  }

  lemma RestOfConcat(a: string, b: string, n: nat)
    requires n < |a| && (a[n + BreakWidth(a, n)..] == "" && a[|a| - 1] == '\r' ==> n == |a| - 1)
    ensures (a + b)[..n] == a[..n]
    ensures var rest := a[n + BreakWidth(a, n)..];
            (a + b)[n + BreakWidth(a + b, n)..] == if rest != "" then rest + b else if CutsCrLf(a, b) then b[1..] else b
  {
  }

  /** Splitting commutes with concatenation at a line boundary, except that cutting a CR LF
      pair in two leaves an empty line at the start of the second part. */
  lemma {:induction false} SplitLinesConcat(a: string, b: string)
    requires EndsAtBreak(a)
    ensures SplitLines(a + b) == SplitLines(a) + SplitLines(if CutsCrLf(a, b) then b[1..] else b)
    decreases |a|
  {
    hide SplitLines, LineEnd, IsBreak, EndsAtBreak;
    var tail := if CutsCrLf(a, b) then b[1..] else b;
    if a == "" {
      assert a + b == b;
      SplitNothing();
    } else {
      var n := FirstBreak(a);
      SplitFirst(a, n);
      SplitFirst(a + b, n);
      RestOfConcat(a, b, n);
      var rest := a[n + BreakWidth(a, n)..];
      if rest != "" {
        SplitLinesConcat(rest, b);
      } else {
        SplitNothing();
      }
      ConcatAssoc([a[..n]], SplitLines(rest), SplitLines(tail));
    }
  }

  lemma SplitNothing()
    ensures SplitLines("") == []
  {
  }

  lemma LeadingBreak(b: string)
    requires b != "" && b[0] == '\n'
    ensures SplitLines(b) == [""] + SplitLines(b[1..])
  {
    LineEndIs(b, 0);
  }

  // ---------- one line ----------

  function StripLeft(s: string): string {
    if s != "" && IsSpace(s[0]) then StripLeft(s[1..]) else s
  }

  function StripRight(s: string): string {
    if s != "" && IsSpace(s[|s| - 1]) then StripRight(s[..|s| - 1]) else s
  }

  function Strip(s: string): string {
    StripRight(StripLeft(s))
  }

  /** The JSON object a line carries, if it carries one. */
  function LinePayload(line: string, json: Decoder): Option<map<string, Json>> {
    if |line| < 5 || line[..5] != "data:" then None
    else
      var data := Strip(line[5..]);
      if data == "" || data == "[DONE]" then None
      else
        match json(data)
        case Some(Obj(fields)) => Some(fields)
        case _ => None
  }

  function ChoiceContent(choice: Json): seq<string> {
    match choice
    case Obj(fields) =>
      (if "delta" !in fields then [] else
         match fields["delta"]
         case Obj(delta) => if "content" in delta && delta["content"].Str? then [delta["content"].s] else []
         case _ => [])
    case _ => []
  }

  function ChoicesContent(choices: seq<Json>): seq<string> {
    if choices == [] then [] else ChoiceContent(choices[0]) + ChoicesContent(choices[1..])
  }

  /** `for choice in payload.get("choices", [])`: strings and objects iterate over strings,
      which carry no delta; null, booleans and numbers raise. */
  function PayloadContent(fields: map<string, Json>): Parsed {
    if "choices" !in fields then Parts([])
    else
      match fields["choices"]
      case Arr(items) => Parts(ChoicesContent(items))
      case Str(_) => Parts([])
      case Obj(_) => Parts([])
      case _ => Raised
  }

  // ---------- a chunk ----------

  function Payloads(lines: seq<string>, json: Decoder): seq<map<string, Json>> {
    if lines == [] then []
    else
      (match LinePayload(lines[0], json)
       case Some(p) => [p]
       case None => []) + Payloads(lines[1..], json)
  }

  function Contents(payloads: seq<map<string, Json>>): Parsed {
    if payloads == [] then Parts([]) else Join(PayloadContent(payloads[0]), Contents(payloads[1..]))
  }

  function Extract(chunk: string, json: Decoder): Parsed {
    Contents(Payloads(SplitLines(chunk), json))
  }

  lemma {:induction false} PayloadsConcat(a: seq<string>, b: seq<string>, json: Decoder)
    ensures Payloads(a + b, json) == Payloads(a, json) + Payloads(b, json)
  {
    hide LinePayload;
    if a == [] {
      assert a + b == b;
    } else {
      assert (a + b)[1..] == a[1..] + b;
      PayloadsConcat(a[1..], b, json);
    }
  }

  lemma JoinAssoc(a: Parsed, b: Parsed, c: Parsed)
    ensures Join(Join(a, b), c) == Join(a, Join(b, c)) && Join(Parts([]), a) == a == Join(a, Parts([]))
  {
  }

  lemma {:induction false} ContentsConcat(a: seq<map<string, Json>>, b: seq<map<string, Json>>)
    ensures Contents(a + b) == Join(Contents(a), Contents(b))
  {
    JoinAssoc(Contents(b), Parts([]), Parts([]));
    if a == [] {
      assert a + b == b;
    } else {
      assert (a + b)[1..] == a[1..] + b;
      ContentsConcat(a[1..], b);
      JoinAssoc(PayloadContent(a[0]), Contents(a[1..]), Contents(b));
    }
  }

  lemma ChoicesContentConcat(a: seq<Json>, b: seq<Json>)
    ensures ChoicesContent(a + b) == ChoicesContent(a) + ChoicesContent(b)
  {
    if a == [] {
      assert a + b == b;
    } else {
      assert (a + b)[1..] == a[1..] + b;
    }
  }

  lemma EmptyLineIsSilent(lines: seq<string>, json: Decoder)
    ensures Payloads([""] + lines, json) == Payloads(lines, json)
  {
    assert ([""] + lines)[1..] == lines && LinePayload("", json) == None;
    assert [] + Payloads(lines, json) == Payloads(lines, json);
  }

  /** Extraction is a homomorphism over cuts at line boundaries, CR LF cut in two included. */
  lemma ExtractConcat(a: string, b: string, json: Decoder)
    requires EndsAtBreak(a)
    ensures Extract(a + b, json) == Join(Extract(a, json), Extract(b, json))
  {
    hide SplitLines, LineEnd, IsBreak, EndsAtBreak, Payloads, Contents, Join;
    SplitLinesConcat(a, b);
    var tail := if CutsCrLf(a, b) then b[1..] else b;
    PayloadsConcat(SplitLines(a), SplitLines(tail), json);
    ContentsConcat(Payloads(SplitLines(a), json), Payloads(SplitLines(tail), json));
    if CutsCrLf(a, b) {
      LeadingBreak(b);
      EmptyLineIsSilent(SplitLines(tail), json);
    }
  }

  // ---------- a cut anywhere ----------

  /** Where the last line of a text starts, behind its last break. */
  function LastLine(s: string): (n: nat)
    ensures n <= |s| && EndsAtBreak(s[..n]) && forall k :: n <= k < |s| ==> !IsBreak(s[k])
  {
    if s == "" || IsBreak(s[|s| - 1]) then |s|
    else
      var n := LastLine(s[..|s| - 1]);
      assert s[..|s| - 1][..n] == s[..n];
      n
  }

  /** A line and what follows it, beginning with its break, are read apart. */
  lemma LineThenBreak(line: string, rest: string, json: Decoder)
    requires forall k :: 0 <= k < |line| ==> !IsBreak(line[k])
    requires rest == "" || IsBreak(rest[0])
    ensures Extract(line + rest, json) == Join(Extract(line, json), Extract(rest, json))
  {
    hide IsBreak, SplitLines, Payloads, Contents, Join;
    JoinAssoc(Extract(line, json), Parts([]), Parts([]));
    if rest == "" {
      assert line + rest == line;
      NothingExtracted(json);
    } else {
      var w := BreakWidth(rest, 0);
      SplitFirst(line + rest, |line|);
      SplitFirst(rest, 0);
      assert (line + rest)[..|line|] == line && rest[..0] == "";
      assert BreakWidth(line + rest, |line|) == w && (line + rest)[|line| + w..] == rest[w..];
      EmptyLineIsSilent(SplitLines(rest[w..]), json);
      PayloadsConcat([line], SplitLines(rest[w..]), json);
      ContentsConcat(Payloads([line], json), Payloads(SplitLines(rest[w..]), json));
      OneLine(line, json);
    }
  }

  lemma NothingExtracted(json: Decoder)
    ensures Extract("", json) == Parts([])
  {
  }

  lemma OneLine(line: string, json: Decoder)
    requires forall k :: 0 <= k < |line| ==> !IsBreak(line[k])
    ensures Payloads(SplitLines(line), json) == Payloads([line], json)
  {
    hide IsBreak;
    LineEndIs(line, |line|);
    if line == "" {
      EmptyLineIsSilent([], json);
      assert [""] + [] == [""];
    }
  }

  /** Exactly when a line can be cut in two, into `l` and `m`, without changing what is extracted:
      when an earlier or a later line raises anyway, or when the line carries what its parts carry. */
  lemma CutInLine(a: string, l: string, m: string, b: string, json: Decoder)
    requires EndsAtBreak(a) && (b == "" || IsBreak(b[0]))
    requires forall k :: 0 <= k < |l| ==> !IsBreak(l[k])
    requires forall k :: 0 <= k < |m| ==> !IsBreak(m[k])
    ensures Extract((a + l) + (m + b), json) == Join(Extract(a + l, json), Extract(m + b, json)) <==>
              || Extract(a, json).Raised? || Extract(b, json).Raised?
              || Extract(l + m, json) == Join(Extract(l, json), Extract(m, json))
  {
    hide IsBreak, EndsAtBreak, Extract, Join;
    var (ea, el, em, eb) := (Extract(a, json), Extract(l, json), Extract(m, json), Extract(b, json));
    var whole := Extract(l + m, json);
    Regrouped(a, l, m, b);
    ExtractConcat(a, l, json);
    ExtractConcat(a, (l + m) + b, json);
    LineThenBreak(m, b, json);
    LineThenBreak(l + m, b, json);
    assert Extract((a + l) + (m + b), json) == Join(ea, Join(whole, eb));
    JoinAssoc(ea, el, Join(em, eb));
    JoinAssoc(el, em, eb);
    assert Join(Join(ea, el), Join(em, eb)) == Join(ea, Join(Join(el, em), eb));
    JoinCancels(ea, whole, Join(el, em), eb);
  }

  lemma Regrouped(a: string, l: string, m: string, b: string)
    ensures (a + l) + (m + b) == a + ((l + m) + b)
  {
  }

  /** The same for any text and any cut: `l` is what the cut leaves of the line before it, `m` what
      it leaves of the line behind it. */
  lemma CutAnywhere(x: string, y: string, json: Decoder)
    ensures var (a, l) := (x[..LastLine(x)], x[LastLine(x)..]);
            var (m, b) := (y[..LineEnd(y)], y[LineEnd(y)..]);
            Extract(x + y, json) == Join(Extract(x, json), Extract(y, json)) <==>
              || Extract(a, json).Raised? || Extract(b, json).Raised?
              || Extract(l + m, json) == Join(Extract(l, json), Extract(m, json))
  {
    hide IsBreak, EndsAtBreak, Extract, Join, LastLine, LineEnd;
    assert x == x[..LastLine(x)] + x[LastLine(x)..];
    assert y == y[..LineEnd(y)] + y[LineEnd(y)..];
    CutInLine(x[..LastLine(x)], x[LastLine(x)..], y[..LineEnd(y)], y[LineEnd(y)..], json);
  }

  lemma JoinCancels(a: Parsed, x: Parsed, y: Parsed, b: Parsed)
    ensures Join(a, Join(x, b)) == Join(a, Join(y, b)) <==> a.Raised? || b.Raised? || x == y
  {
    if a.Parts? && b.Parts? && x.Parts? && y.Parts? && a.parts + (x.parts + b.parts) == a.parts + (y.parts + b.parts) {
      var (p, q, n) := (a.parts + (x.parts + b.parts), a.parts + (y.parts + b.parts), |a.parts|);
      assert p[n..] == x.parts + b.parts && q[n..] == y.parts + b.parts;
      assert |x.parts| == |y.parts|;
      assert p[n..][..|x.parts|] == x.parts && q[n..][..|y.parts|] == y.parts;
    }
  }

  // ---------- what is extracted ----------

  /** No white space at either end, and not empty. */
  predicate Trim(s: string) {
    s != "" && !IsSpace(s[0]) && !IsSpace(s[|s| - 1])
  }

  predicate Spaces(s: string) {
    forall i :: 0 <= i < |s| ==> IsSpace(s[i])
  }

  lemma {:induction false} StripLeftMeans(pad: string, rest: string)
    requires Spaces(pad) && (rest == "" || !IsSpace(rest[0]))
    ensures StripLeft(pad + rest) == rest
  {
    hide IsSpace;
    if pad == "" {
      assert pad + rest == rest;
    } else {
      assert (pad + rest)[1..] == pad[1..] + rest;
      StripLeftMeans(pad[1..], rest);
    }
  }

  lemma {:induction false} StripRightMeans(rest: string, pad: string)
    requires Spaces(pad) && (rest == "" || !IsSpace(rest[|rest| - 1]))
    ensures StripRight(rest + pad) == rest
    decreases |pad|
  {
    hide IsSpace;
    if pad == "" {
      assert rest + pad == rest;
    } else {
      var n := |pad| - 1;
      assert (rest + pad)[..|rest + pad| - 1] == rest + pad[..n];
      StripRightMeans(rest, pad[..n]);
    }
  }

  /** Stripping takes the white space off both ends, and nothing else. */
  lemma StripMeans(before: string, s: string, after: string)
    requires Spaces(before) && Spaces(after) && (s == "" || Trim(s))
    ensures Strip(before + s + after) == s
  {
    hide IsSpace;
    if s == "" {
      StripLeftMeans(before + after, "");
      assert before + s + after == (before + after) + "";
    } else {
      StripLeftMeans(before, s + after);
      assert before + s + after == before + (s + after);
      StripRightMeans(s, after);
    }
  }

  /** What a line carries: for `data:` and some text in white space, the object that the text decodes
      to; nothing if it decodes to something else or not at all, is missing, or is the end marker. */
  lemma LineCarries(before: string, data: string, after: string, json: Decoder)
    requires Spaces(before) && Spaces(after) && (data == "" || Trim(data))
    ensures LinePayload("data:" + (before + data + after), json) ==
              if data != "" && data != "[DONE]" && json(data).Some? && json(data).value.Obj?
              then Some(json(data).value.fields) else None
  {
    hide IsSpace;
    StripMeans(before, data, after);
    var line := "data:" + (before + data + after);
    assert line[..5] == "data:" && line[5..] == before + data + after;
  }

  lemma OtherLinesCarryNothing(line: string, json: Decoder)
    requires |line| < 5 || line[..5] != "data:"
    ensures LinePayload(line, json) == None
  {
  }

  /** `choice.delta.content` is the string `s`, whatever else the choice has. */
  predicate Says(choice: Json, s: string) {
    && choice.Obj? && "delta" in choice.fields
    && choice.fields["delta"].Obj? && "content" in choice.fields["delta"].fields
    && choice.fields["delta"].fields["content"] == Str(s)
  }

  /** By position: the k-th part is what the k-th choice says that says something. */
  ghost predicate SaidAt(choices: seq<Json>, parts: seq<string>, at: seq<nat>) {
    && Ascending(at, |choices|) && |at| == |parts|
    && (forall k :: 0 <= k < |at| ==> Says(choices[at[k]], parts[k]))
    && (forall i, s :: 0 <= i < |choices| && Says(choices[i], s) ==> i in at)
  }

  lemma {:induction false} ChoicesMean(choices: seq<Json>) returns (at: seq<nat>)
    ensures SaidAt(choices, ChoicesContent(choices), at)
  {
    hide Says;
    if choices == [] {
      at := [];
    } else {
      var n := |choices| - 1;
      var front, last := choices[..n], choices[n];
      assert choices == front + [last] && [last][1..] == [];
      at := ChoicesMean(front);
      ChoicesContentConcat(front, [last]);
      ChoiceMeans(last);
      var parts := ChoiceContent(last);
      assert ChoicesContent([last]) == parts;
      if parts != [] {
        SaidMore(front, ChoicesContent(front), at, last, parts[0]);
        at := at + [n];
      } else {
        SilentMore(front, ChoicesContent(front), at, last);
      }
    }
  }

  lemma ChoiceMeans(choice: Json)
    ensures |ChoiceContent(choice)| <= 1
    ensures forall s :: Says(choice, s) <==> ChoiceContent(choice) == [s]
  {
    forall s ensures Says(choice, s) <==> ChoiceContent(choice) == [s] {
      assert [s][0] == s;
    }
  }

  lemma SaidMore(front: seq<Json>, parts: seq<string>, at: seq<nat>, last: Json, s: string)
    requires SaidAt(front, parts, at) && Says(last, s)
    ensures SaidAt(front + [last], parts + [s], at + [|front|])
  {
    hide Says;
    var all, more := front + [last], at + [|front|];
    assert more[|at|] == |front|;
    forall i, t | 0 <= i < |all| && Says(all[i], t) ensures i in more {
      if i < |front| {
        assert Says(front[i], t);
        var k :| 0 <= k < |at| && at[k] == i;
        assert more[k] == i;
      }
    }
  }

  lemma SilentMore(front: seq<Json>, parts: seq<string>, at: seq<nat>, last: Json)
    requires SaidAt(front, parts, at) && forall s :: !Says(last, s)
    ensures SaidAt(front + [last], parts + [], at)
  {
    hide Says;
    var all := front + [last];
    forall i, t | 0 <= i < |all| && Says(all[i], t) ensures i in at {
      assert i < |front| && Says(front[i], t);
    }
  }

  /** An object without choices has no content; choices that cannot be iterated over raise; strings
      and objects iterate over strings, which say nothing. */
  lemma PayloadMeans(fields: map<string, Json>)
    ensures "choices" !in fields ==> PayloadContent(fields) == Parts([])
    ensures "choices" in fields ==>
              var c := fields["choices"];
              && (PayloadContent(fields).Raised? <==> c.Null? || c.Bool? || c.Number?)
              && (c.Arr? ==> PayloadContent(fields) == Parts(ChoicesContent(c.items)))
              && (c.Str? || c.Obj? ==> PayloadContent(fields) == Parts([]))
  {
  }

  lemma LineAndBreaks(line: string, json: Decoder)
    requires forall i :: 0 <= i < |line| ==> !IsBreak(line[i])
    ensures Extract(line + "\n\n", json) == Contents(Payloads([line], json))
  {
    hide IsBreak, Payloads, Contents, Join;
    BlankIsSilent(json);
    LineThenBreak(line, "\n\n", json);
    OneLine(line, json);
    JoinAssoc(Extract(line, json), Parts([]), Parts([]));
  }

  lemma BlankIsSilent(json: Decoder)
    ensures Extract("\n\n", json) == Parts([]) && IsBreak("\n\n"[0])
  {
    hide LinePayload;
    LeadingBreak("\n\n");
    assert "\n\n"[1..] == "\n";
    LeadingBreak("\n");
    assert "\n"[1..] == "";
    SplitNothing();
    EmptyLineIsSilent([""] + [], json);
    EmptyLineIsSilent([], json);
  }

  /** An event whose one choice says `s`, whatever other fields there are, is extracted as `s`,
      character for character. */
  lemma EventSays(body: string, json: Decoder, fields: map<string, Json>, choice: Json, s: string)
    requires Trim(body) && body != "[DONE]" && forall i :: 0 <= i < |body| ==> !IsBreak(body[i])
    requires json(body) == Some(Obj(fields))
    requires "choices" in fields && fields["choices"] == Arr([choice]) && Says(choice, s)
    ensures Extract("data: " + body + "\n\n", json) == Parts([s])
  {
    hide IsBreak, LinePayload, Says, ChoiceContent;
    var line := "data: " + body;
    DataLine(body);
    LineAndBreaks(line, json);
    Space();
    LineCarries(" ", body, "", json);
    assert line == "data:" + (" " + body + "");
    ChoiceMeans(choice);
    assert [line][1..] == [] && [choice][1..] == [] && [fields][1..] == [];
    assert Payloads([line], json) == [fields] + [];
    assert ChoicesContent([choice]) == [s] + [];
  }

  lemma Space()
    ensures Spaces(" ") && Spaces("")
  {
  }

  lemma DataLine(body: string)
    requires forall i :: 0 <= i < |body| ==> !IsBreak(body[i])
    ensures forall i :: 0 <= i < |"data: " + body| ==> !IsBreak(("data: " + body)[i])
  {
    var line := "data: " + body;
    assert forall i :: 6 <= i < |line| ==> line[i] == body[i - 6];
    DataHasNoBreak();
  }

  lemma DataHasNoBreak()
    ensures forall i :: 0 <= i < 6 ==> !IsBreak("data: "[i])
  {
  }

  /** A content event cut inside its JSON: neither half carries the content. */
  lemma CutEventIsLost()
    ensures var json: Decoder := s => if s == "{}" then Some(Greeting()) else None;
            && Extract("data: {}", json) == Parts(["hi"])
            && Extract("data: {", json) == Parts([]) && Extract("}", json) == Parts([])
  {
    hide IsBreak, SplitLines, LinePayload;
    var json: Decoder := s => if s == "{}" then Some(Greeting()) else None;
    EventLines();
    EventPayloads(json);
    OneLine("data: {}", json);
    OneLine("data: {", json);
    OneLine("}", json);
    GreetingSays();
    assert [Greeting().fields][1..] == [];
  }

  function Greeting(): Json {
    Obj(map["choices" := Arr([Obj(map["delta" := Obj(map["content" := Str("hi")])])])])
  }

  lemma GreetingSays()
    ensures Greeting().Obj? && Contents([Greeting().fields]) == Parts(["hi"])
  {
    var choice := Obj(map["delta" := Obj(map["content" := Str("hi")])]);
    assert ChoiceContent(choice) == ["hi"];
    assert [choice][1..] == [] && [Greeting().fields][1..] == [];
    assert ChoicesContent([choice]) == ["hi"];
  }

  lemma EventLines()
    ensures forall k :: 0 <= k < |"data: {}"| ==> !IsBreak("data: {}"[k])
    ensures forall k :: 0 <= k < |"data: {"| ==> !IsBreak("data: {"[k])
    ensures !IsBreak('}')
  {
  }

  lemma EventPayloads(json: Decoder)
    requires json("{}") == Some(Greeting()) && json("{") == None
    ensures Payloads(["data: {}"], json) == [Greeting().fields]
    ensures Payloads(["data: {"], json) == [] && Payloads(["}"], json) == []
  {
    StripEvent();
    assert ["data: {}"][1..] == [] && ["data: {"][1..] == [] && ["}"][1..] == [];
    assert "data: {}"[..5] == "data:" && "data: {}"[5..] == " {}";
    assert "data: {"[..5] == "data:" && "data: {"[5..] == " {";
  }

  lemma StripEvent()
    ensures Strip(" {}") == "{}" && Strip(" {") == "{"
  {
    assert " {}"[1..] == "{}" && " {"[1..] == "{";
  }

  // ---------- a stream of chunks ----------

  function Flatten(chunks: seq<string>): string {
    if chunks == [] then "" else chunks[0] + Flatten(chunks[1..])
  }

  function ExtractAll(chunks: seq<string>, json: Decoder): Parsed {
    if chunks == [] then Parts([]) else Join(Extract(chunks[0], json), ExtractAll(chunks[1..], json))
  }

  predicate LineAligned(chunks: seq<string>) {
    forall i :: 0 <= i < |chunks| - 1 ==> EndsAtBreak(chunks[i])
  }

  /** What is extracted from a stream of line-aligned chunks is what is extracted from its
      text, so it does not depend on where the stream was cut. */
  lemma {:induction false} ChunkingIsIrrelevant(chunks: seq<string>, json: Decoder)
    requires LineAligned(chunks)
    ensures ExtractAll(chunks, json) == Extract(Flatten(chunks), json)
  {
    if chunks == [] {
      assert Extract("", json) == Parts([]);
    } else if |chunks| == 1 {
      assert Flatten(chunks) == chunks[0] + Flatten([]) == chunks[0];
      assert ExtractAll(chunks[1..], json) == Parts([]);
    } else {
      assert forall i :: 0 <= i < |chunks[1..]| - 1 ==> chunks[1..][i] == chunks[i + 1];
      ChunkingIsIrrelevant(chunks[1..], json);
      ExtractConcat(chunks[0], Flatten(chunks[1..]), json);
    }
  }

  lemma SameTextSameContent(one: seq<string>, other: seq<string>, json: Decoder)
    requires LineAligned(one) && LineAligned(other) && Flatten(one) == Flatten(other)
    ensures ExtractAll(one, json) == ExtractAll(other, json)
  {
    ChunkingIsIrrelevant(one, json);
    ChunkingIsIrrelevant(other, json);
  }

  lemma {:induction false} ExtractAllConcat(a: seq<string>, b: seq<string>, json: Decoder)
    ensures ExtractAll(a + b, json) == Join(ExtractAll(a, json), ExtractAll(b, json))
  {
    hide Extract, Join;
    JoinAssoc(ExtractAll(b, json), Parts([]), Parts([]));
    if a == [] {
      assert a + b == b;
    } else {
      assert (a + b)[1..] == a[1..] + b;
      ExtractAllConcat(a[1..], b, json);
      JoinAssoc(Extract(a[0], json), ExtractAll(a[1..], json), ExtractAll(b, json));
    }
  }

  lemma ExtractAllSnoc(chunks: seq<string>, c: string, json: Decoder)
    ensures ExtractAll(chunks + [c], json) == Join(ExtractAll(chunks, json), Extract(c, json))
  {
    ExtractAllConcat(chunks, [c], json);
    assert [c][1..] == [];
  }

  // ---------- the two extraction routines ----------

  method ExtractSseJson(chunk: string, json: Decoder) returns (payloads: seq<map<string, Json>>)
    ensures payloads == Payloads(SplitLines(chunk), json)
  {
    payloads := [];
    var lines := SplitLines(chunk);
    var i := 0;
    while i < |lines|
      invariant 0 <= i <= |lines|
      invariant payloads == Payloads(lines[..i], json)
    {
      PayloadsConcat(lines[..i], [lines[i]], json);
      assert lines[..i + 1] == lines[..i] + [lines[i]] && [lines[i]][1..] == [];
      var p := LinePayload(lines[i], json);
      if p.Some? {
        payloads := payloads + [p.value];
      }
      i := i + 1;
    }
    assert lines[..|lines|] == lines;
  }

  method ExtractSseContent(chunk: string, json: Decoder) returns (r: Parsed)
    ensures r == Extract(chunk, json)
  {
    assert Contents([]) == Parts([]);
    hide PayloadContent, Contents, Payloads, SplitLines;
    var payloads := ExtractSseJson(chunk, json);
    r := Parts([]);
    var i := 0;
    while i < |payloads| && r.Parts?
      invariant 0 <= i <= |payloads|
      invariant Contents(payloads[..i]) == r
    {
      var more := PayloadLoop(payloads[i]);
      ContentsSnoc(payloads, i);
      r := if more.Parts? then Parts(r.parts + more.parts) else Raised;
      i := i + 1;
    }
    ContentsRest(payloads, i);
  }

  /** What is behind a payload that raises is not looked at. */
  lemma ContentsRest(payloads: seq<map<string, Json>>, i: nat)
    requires i <= |payloads|
    ensures i == |payloads| || Contents(payloads[..i]).Raised? ==> Contents(payloads) == Contents(payloads[..i])
  {
    hide Contents;
    ContentsConcat(payloads[..i], payloads[i..]);
    assert payloads == payloads[..i] + payloads[i..];
    assert i == |payloads| ==> payloads[..i] == payloads;
  }

  lemma ContentsSnoc(payloads: seq<map<string, Json>>, i: nat)
    requires i < |payloads|
    ensures Contents(payloads[..i + 1]) == Join(Contents(payloads[..i]), PayloadContent(payloads[i]))
  {
    ContentsConcat(payloads[..i], [payloads[i]]);
    assert payloads[..i + 1] == payloads[..i] + [payloads[i]] && [payloads[i]][1..] == [];
    JoinAssoc(PayloadContent(payloads[i]), Parts([]), Parts([]));
  }

  method PayloadLoop(fields: map<string, Json>) returns (r: Parsed)
    ensures r == PayloadContent(fields)
  {
    if "choices" !in fields {
      return Parts([]);
    }
    match fields["choices"] {
      case Arr(choices) =>
        var parts := ChoicesLoop(choices);
        r := Parts(parts);
      case Str(_) => r := Parts([]);
      case Obj(_) => r := Parts([]);
      case _ => r := Raised;
    }
  }

  method ChoicesLoop(choices: seq<Json>) returns (parts: seq<string>)
    ensures parts == ChoicesContent(choices)
  {
    parts := [];
    var i := 0;
    while i < |choices|
      invariant 0 <= i <= |choices|
      invariant parts == ChoicesContent(choices[..i])
    {
      ChoicesContentConcat(choices[..i], [choices[i]]);
      assert choices[..i + 1] == choices[..i] + [choices[i]] && [choices[i]][1..] == [];
      var content := ChoiceContent(choices[i]);
      parts := parts + content;
      i := i + 1;
    }
    assert choices[..|choices|] == choices;
  }
}

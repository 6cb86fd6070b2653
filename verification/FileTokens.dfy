/** File tokens: attachments printed into the text of a message and parsed out of it again. */
module FileTokens {
  import opened Text
  import opened Wrappers

  /** A remote or local attachment. */
  datatype File = File(kind: string, path: string, name: string, size: Option<nat>)

  datatype Parsed = Parsed(text: string, files: seq<File>)

  // ----- Printing -----

  /** A character inside a JSON string. Characters stand for code points, so there are no lone surrogates. */
  function Escape(c: char): (r: string)
    ensures |r| == 1 ==> r[0] == c
    ensures |r| != 1 ==> c != '\U{2028}' && c != '\U{2029}'
    ensures |r| != 1 ==> forall d :: d in r ==> d != '}' && d != ']' && d != '\U{2028}' && d != '\U{2029}'
    ensures forall d :: d in r ==> d != '\n' && d != '\r'
    ensures r != ""
  {
    if c == '"' then ['\\', '"']
    else if c == '\\' then ['\\', '\\']
    else if c == '\n' then ['\\', 'n']
    else if c == '\r' then ['\\', 'r']
    else if c == '\t' then ['\\', 't']
    else if c == '\U{0008}' then ['\\', 'b']
    else if c == '\U{000C}' then ['\\', 'f']
    else if c < ' ' then ['\\', 'u', '0', '0', HexDigit(c as int / 16), HexDigit(c as int % 16)]
    else [c]
  }

  function HexDigit(d: int): (r: char)
    requires 0 <= d < 16
    ensures '0' <= r <= '9' || 'a' <= r <= 'f'
  {
    if d < 10 then ('0' as int + d) as char else ('a' as int + d - 10) as char
  }

  function Escaped(s: string): string {
    if s == "" then "" else Escaped(s[..|s| - 1]) + Escape(s[|s| - 1])
  }

  function Quoted(s: string): string {
    ['"'] + Escaped(s) + ['"']
  }

  /** What stands between the braces of the payload. */
  function Members(f: File): string {
    "\"kind\":" + Quoted(f.kind) + ",\"path\":" + Quoted(f.path) + ",\"name\":" + Quoted(f.name) +
    (if f.size.Some? then ",\"size\":" + Digits(f.size.value) else "")
  }

  function Json(f: File): string {
    ['{'] + Members(f) + ['}']
  }

  const OPENING := "[[file:"

  function AttachmentToken(f: File): string {
    OPENING + Json(f) + "]]"
  }

  function Tokens(files: seq<File>): string {
    Join(seq(|files|, i requires 0 <= i < |files| => AttachmentToken(files[i])), "\n")
  }

  /** The text a message is sent with: as typed when nothing is attached, trimmed otherwise. */
  function Message(text: string, files: seq<File>): string {
    if files == [] then text
    else if Trim(text) == "" then Tokens(files)
    else Trim(text) + "\n\n" + Tokens(files)
  }

  // ----- Matching -----

  predicate OpensAt(s: string, i: nat) {
    && i + 8 <= |s|
    && s[i] == '[' && s[i + 1] == '[' && s[i + 2] == 'f' && s[i + 3] == 'i' && s[i + 4] == 'l' && s[i + 5] == 'e'
    && s[i + 6] == ':' && s[i + 7] == '{'
  }

  predicate ClosesAt(s: string, i: nat) {
    i + 3 <= |s| && s[i] == '}' && s[i + 1] == ']' && s[i + 2] == ']'
  }

  predicate EndsLine(c: char) {
    c == '\n' || c == '\r' || c == '\U{2028}' || c == '\U{2029}'
  }

  /** The first closing bracket from `i` on, on the same line. */
  function Closing(s: string, i: nat): (r: Option<nat>)
    ensures r.Some? ==> i <= r.value && ClosesAt(s, r.value)
    decreases |s| - i
  {
    if ClosesAt(s, i) then Some(i)
    else if i >= |s| || EndsLine(s[i]) then None
    else Closing(s, i + 1)
  }

  /** Where the payload of a token at `i` ends, if a token matches there. */
  function MatchAt(s: string, i: nat): (r: Option<nat>)
    ensures r.Some? ==> OpensAt(s, i) && i + 8 <= r.value && ClosesAt(s, r.value)
  {
    if OpensAt(s, i) then Closing(s, i + 8) else None
  }

  type Parser = string -> Option<File>

  /** The file of a payload, if reading it gives one with a path that is not blank. */
  function FileOf(parse: Parser, payload: string): Option<File> {
    if parse(payload).Some? && Trim(parse(payload).value.path) != "" then parse(payload) else None
  }

  /** The text from `i` on without its file tokens; a match that gives no file stays in the text. */
  function Scan(parse: Parser, s: string, i: nat): Parsed
    requires i <= |s|
    decreases |s| - i
  {
    if i == |s| then Parsed("", [])
    else
      var m := MatchAt(s, i);
      if m.None? then
        var rest := Scan(parse, s, i + 1);
        rest.(text := [s[i]] + rest.text)
      else
        var rest := Scan(parse, s, m.value + 3);
        var file := FileOf(parse, s[i + 7..m.value + 1]);
        if file.Some? then rest.(files := [file.value] + rest.files)
        else rest.(text := s[i..m.value + 3] + rest.text)
  }

  /** Three or more newlines become two. */
  function FewNewlines(s: string): (r: string)
    ensures |r| <= |s|
  {
    if s == "" then ""
    else if |s| >= 3 && s[0] == '\n' && s[1] == '\n' && s[2] == '\n' then FewNewlines(s[1..])
    else [s[0]] + FewNewlines(s[1..])
  }

  function Parse(parse: Parser, s: string): Parsed {
    var scanned := Scan(parse, s, 0);
    Parsed(TrimEnd(FewNewlines(scanned.text)), scanned.files)
  }

  function Prepended(text: string, files: seq<File>, p: Parsed): Parsed {
    Parsed(text + p.text, files + p.files)
  }

  lemma PrependedTwice(text: string, files: seq<File>, more: string, others: seq<File>, p: Parsed)
    ensures Prepended(text, files, Prepended(more, others, p)) == Prepended(text + more, files + others, p)
  {
    assert text + (more + p.text) == text + more + p.text;
    assert files + (others + p.files) == files + others + p.files;
  }

  lemma NothingInFront(p: Parsed)
    ensures Prepended("", [], p) == p
  {
    assert "" + p.text == p.text;
  }

  lemma NothingLeft(parse: Parser, s: string, text: string, files: seq<File>)
    ensures Prepended(text, files, Scan(parse, s, |s|)) == Parsed(text, files)
  {
  }

  /** What the scan does at a position that is not the end. */
  lemma ScanAt(parse: Parser, s: string, i: nat)
    requires i < |s|
    ensures var m := MatchAt(s, i);
      if m.None? then Scan(parse, s, i) == Prepended([s[i]], [], Scan(parse, s, i + 1))
      else
        var file := FileOf(parse, s[i + 7..m.value + 1]);
        Scan(parse, s, i) ==
          if file.Some? then Prepended("", [file.value], Scan(parse, s, m.value + 3))
          else Prepended(s[i..m.value + 3], [], Scan(parse, s, m.value + 3))
  {
    hide MatchAt, FileOf, OpensAt, ClosesAt;
  }

  /** The parser as it runs: it copies the text between matches and collects files. */
  method ParseFileTokens(parse: Parser, s: string) returns (r: Parsed)
    ensures r == Parse(parse, s)
  {
    hide FewNewlines, TrimEnd, MatchAt, FileOf, OpensAt, Scan, Prepended;
    var files: seq<File>, clean := [], "";
    var lastIndex: nat, i: nat := 0, 0;
    ghost var done := "";
    NothingInFront(Scan(parse, s, 0));
    while i < |s|
      invariant lastIndex <= i <= |s|
      invariant done == clean + s[lastIndex..i]
      invariant Scan(parse, s, 0) == Prepended(done, files, Scan(parse, s, i))
    {
      ScanAt(parse, s, i);
      var m := MatchAt(s, i);
      assert files + [] == files && done + "" == done;
      if m.None? {
        PrependedTwice(done, files, [s[i]], [], Scan(parse, s, i + 1));
        done := done + [s[i]];
        assert s[lastIndex..i + 1] == s[lastIndex..i] + [s[i]];
        i := i + 1;
        continue;
      }
      clean := clean + s[lastIndex..i];
      lastIndex := m.value + 3;
      var file := FileOf(parse, s[i + 7..m.value + 1]);
      if file.Some? {
        PrependedTwice(done, files, "", [file.value], Scan(parse, s, lastIndex));
        files := files + [file.value];
      } else {
        PrependedTwice(done, files, s[i..lastIndex], [], Scan(parse, s, lastIndex));
        clean := clean + s[i..lastIndex];
      }
      i := lastIndex;
      done := clean;
    }
    clean := clean + s[lastIndex..];
    assert s[lastIndex..] == s[lastIndex..i];
    NothingLeft(parse, s, done, files);
    r := Parsed(TrimEnd(FewNewlines(clean)), files);
  }

  // ----- When a token matches whole -----

  predicate OnOneLine(s: string) {
    forall c :: c in s ==> !EndsLine(c)
  }

  /** A closing bracket stands inside. */
  predicate Cuts(s: string) {
    exists i: nat :: i < |s| && ClosesAt(s, i)
  }

  lemma {:induction false} ClosingFrom(s: string, i: nat, end: nat)
    requires i <= end && ClosesAt(s, end)
    ensures Closing(s, i) == Some(end) <==> forall j :: i <= j < end ==> !ClosesAt(s, j) && !EndsLine(s[j])
    decreases end - i
  {
    if i < end && !ClosesAt(s, i) && !EndsLine(s[i]) {
      ClosingFrom(s, i + 1, end);
    }
  }

  lemma ClosesInside(a: string, b: string, c: string, i: nat)
    ensures i + 3 <= |b| ==> (ClosesAt(a + b + c, |a| + i) <==> ClosesAt(b, i))
  {
    if i + 3 <= |b| {
      var s := a + b + c;
      assert s[|a| + i] == b[i] && s[|a| + i + 1] == b[i + 1] && s[|a| + i + 2] == b[i + 2];
    }
  }

  /** How the text around a token looks, position by position. */
  lemma TokenShape(before: string, members: string, rest: string)
    ensures var s := before + "[[file:{" + members + "}]]" + rest;
      && OpensAt(s, |before|) && HoldsMembers(s, |before| + 8, members)
  {
    var s := before + "[[file:{" + members + "}]]" + rest;
    assert forall k :: 0 <= k < 8 ==> s[|before| + k] == "[[file:{"[k];
    assert s[|before| + 8..|before| + 8 + |members|] == members;
    var end := |before| + 8 + |members|;
    assert s[end] == '}' && s[end + 1] == ']' && s[end + 2] == ']';
  }

  /** From `start` on stand `members` and the end of a token. */
  predicate HoldsMembers(s: string, start: nat, members: string) {
    var end := start + |members|;
    end + 3 <= |s| && s[start..end] == members && ClosesAt(s, end)
  }

  predicate EndsBefore(s: string, start: nat, end: nat)
    requires end <= |s|
  {
    exists j :: start <= j < end && (ClosesAt(s, j) || EndsLine(s[j]))
  }

  /** The search stops inside a token only at something inside its payload. */
  lemma StopsAtPayload(s: string, start: nat, members: string)
    requires HoldsMembers(s, start, members)
    ensures EndsBefore(s, start, start + |members|) <==> !OnOneLine(members) || Cuts(members)
  {
    var end := start + |members|;
    assert forall k :: 0 <= k < |members| ==> members[k] == s[start..end][k] == s[start + k];
    if EndsBefore(s, start, end) {
      var j :| start <= j < end && (ClosesAt(s, j) || EndsLine(s[j]));
      assert EndsLine(s[j]) ==> members[j - start] in members;
      if ClosesAt(s, j) {
        assert j + 2 < end by {
          assert s[end] == '}';
        }
        assert ClosesAt(members, j - start);
      }
    }
    if !OnOneLine(members) {
      var k :| 0 <= k < |members| && EndsLine(members[k]);
      assert EndsLine(s[start + k]);
    }
    if Cuts(members) {
      var k: nat :| k < |members| && ClosesAt(members, k);
      assert ClosesAt(s, start + k);
    }
  }

  /** Where a token stands, it matches exactly to its end, if and only if its payload is on one line and
      nothing inside looks like the end of a token. */
  lemma MatchesWhole(before: string, members: string, rest: string)
    ensures var s := before + "[[file:{" + members + "}]]" + rest;
      && OpensAt(s, |before|)
      && (MatchAt(s, |before|) == Some(|before| + 8 + |members|) <==> OnOneLine(members) && !Cuts(members))
      && (MatchAt(s, |before|).Some? ==> MatchAt(s, |before|).value <= |before| + 8 + |members|)
  {
    hide OnOneLine, Cuts, OpensAt, ClosesAt;
    var s := before + "[[file:{" + members + "}]]" + rest;
    var start, end := |before| + 8, |before| + 8 + |members|;
    TokenShape(before, members, rest);
    ClosingFrom(s, start, end);
    ClosingAtMost(s, start, end);
    StopsAtPayload(s, start, members);
  }

  lemma {:induction false} ClosingAtMost(s: string, i: nat, end: nat)
    requires i <= end && ClosesAt(s, end)
    ensures Closing(s, i).Some? ==> Closing(s, i).value <= end
    decreases end - i
  {
    if i < end && !ClosesAt(s, i) && !EndsLine(s[i]) {
      ClosingAtMost(s, i + 1, end);
    }
  }

  // ----- What JSON quoting does to a name -----

  predicate Marks(c: char) {
    c == '}' || c == ']'
  }

  lemma CutsOfSnoc(s: string, c: char)
    ensures Cuts(s + [c]) <==> Cuts(s) || (|s| >= 2 && s[|s| - 2] == '}' && s[|s| - 1] == ']' && c == ']')
  {
    var t := s + [c];
    assert forall i: nat :: ClosesAt(s, i) ==> ClosesAt(t, i);
    if Cuts(t) && !Cuts(s) {
      var i: nat :| i < |t| && ClosesAt(t, i);
      assert i + 3 <= |s| ==> ClosesAt(s, i);
    }
    if |s| >= 2 && s[|s| - 2] == '}' && s[|s| - 1] == ']' && c == ']' {
      assert ClosesAt(t, |s| - 2);
    }
  }

  /** A join of two parts has no cut that neither part has, unless marks meet in the middle. */
  lemma CutsOfJoin(a: string, b: string)
    requires a != "" && b != "" ==> !Marks(a[|a| - 1]) || !Marks(b[0])
    ensures Cuts(a + b) <==> Cuts(a) || Cuts(b)
  {
    var s := a + b;
    assert s == "" + a + b && s == a + b + "";
    if Cuts(a) {
      var i: nat :| i < |a| && ClosesAt(a, i);
      ClosesInside("", a, b, i);
    }
    if Cuts(b) {
      var i: nat :| i < |b| && ClosesAt(b, i);
      ClosesInside(a, b, "", i);
    }
    if Cuts(s) {
      var i: nat :| i < |s| && ClosesAt(s, i);
      if i + 3 <= |a| {
        ClosesInside("", a, b, i);
      } else if i < |a| {
        assert s[|a|] == b[0] && s[|a| - 1] == a[|a| - 1];
      } else {
        ClosesInside(a, b, "", i - |a|);
      }
    }
  }

  /** A payload that a token can carry. */
  predicate Whole(s: string) {
    OnOneLine(s) && !Cuts(s)
  }

  lemma WholeJoin(a: string, b: string)
    requires a != "" && b != "" ==> !Marks(a[|a| - 1]) || !Marks(b[0])
    ensures Whole(a + b) <==> Whole(a) && Whole(b)
  {
    CutsOfJoin(a, b);
    OnOneLineJoin(a, b);
  }

  lemma PlainIsWhole(s: string)
    requires forall i :: 0 <= i < |s| ==> !Marks(s[i]) && !EndsLine(s[i])
    ensures Whole(s)
  {
  }

  /** A name that quoting leaves on one line and without anything like the end of a token. */
  predicate Fits(s: string) {
    !Cuts(s) && NoSeparator(s)
  }

  predicate NoSeparator(s: string) {
    forall c :: c in s ==> c != '\U{2028}' && c != '\U{2029}'
  }

  lemma {:induction false} EscapedEnd(s: string)
    ensures Escaped(s) == "" <==> s == ""
    ensures s != "" && Escaped(s) != "" && Marks(Escaped(s)[|Escaped(s)| - 1]) ==>
      Escape(s[|s| - 1]) == [s[|s| - 1]] && Escaped(s)[|Escaped(s)| - 1] == s[|s| - 1]
    ensures s != "" && Marks(s[|s| - 1]) ==> Escaped(s) == Escaped(s[..|s| - 1]) + [s[|s| - 1]]
  {
    if s != "" {
      var e := Escape(s[|s| - 1]);
      assert Escaped(s)[|Escaped(s)| - 1] == e[|e| - 1];
      if |e| != 1 {
        assert e[|e| - 1] in e;
      }
    }
  }

  lemma EscapeIsPlain(c: char)
    ensures Escape(c) == [c] || (Escape(c) != "" && !Marks(Escape(c)[0]) && !Marks(c) && !Cuts(Escape(c)))
    ensures Escape(c) != [c] ==> |Escape(c)| != 1
  {
    var e := Escape(c);
    if |e| == 1 {
      assert e == [c];
    } else {
      assert forall i :: 0 <= i < |e| ==> e[i] in e;
      PlainIsWhole(e);
    }
  }

  lemma {:induction false} EscapedCuts(s: string)
    ensures Cuts(Escaped(s)) <==> Cuts(s)
  {
    hide Cuts, Escape;
    if s != "" {
      var init, c := s[..|s| - 1], s[|s| - 1];
      var e := Escaped(init);
      EscapedCuts(init);
      assert s == init + [c];
      CutsOfSnoc(init, c);
      EscapedEnd(s);
      EscapeIsPlain(c);
      if |Escape(c)| == 1 {
        CutsOfSnoc(e, c);
        EscapedEnd(init);
        if init != "" {
          EscapedEnd(init[..|init| - 1]);
        }
      } else {
        CutsOfJoin(e, Escape(c));
      }
    }
  }

  lemma EscapeLine(c: char)
    ensures OnOneLine(Escape(c)) <==> NoSeparator([c])
  {
    if |Escape(c)| == 1 {
      assert Escape(c) == [c] && c in Escape(c);
    } else {
      assert c in [c];
    }
  }

  lemma OnOneLineJoin(a: string, b: string)
    ensures OnOneLine(a + b) <==> OnOneLine(a) && OnOneLine(b)
    ensures NoSeparator(a + b) <==> NoSeparator(a) && NoSeparator(b)
  {
    assert forall c :: c in a + b <==> c in a || c in b;
  }

  lemma {:induction false} EscapedLines(s: string)
    ensures OnOneLine(Escaped(s)) <==> NoSeparator(s)
  {
    hide Escape, OnOneLine, NoSeparator;
    if s == "" {
      NothingToEscape();
    } else {
      var init, c := s[..|s| - 1], s[|s| - 1];
      EscapedLines(init);
      EscapeLine(c);
      OnOneLineJoin(Escaped(init), Escape(c));
      OnOneLineJoin(init, [c]);
      assert s == init + [c];
    }
  }

  lemma NothingToEscape()
    ensures OnOneLine("") && NoSeparator("")
  {
  }

  lemma QuotedFits(s: string)
    ensures Whole(Quoted(s)) <==> Fits(s)
    ensures Quoted(s)[0] == '"' && Quoted(s)[|Quoted(s)| - 1] == '"'
  {
    EscapedCuts(s);
    EscapedLines(s);
    PlainIsWhole(['"']);
    WholeJoin(['"'], Escaped(s));
    WholeJoin(['"'] + Escaped(s), ['"']);
  }

  lemma DigitsAreWhole(n: nat)
    ensures Whole(Digits(n)) && !Marks(Digits(n)[0])
  {
    var d := Digits(n);
    assert forall i :: 0 <= i < |d| ==> d[i] in d;
    PlainIsWhole(d);
  }

  lemma FieldNamesArePlain()
    ensures Whole("\"kind\":") && Whole(",\"path\":") && Whole(",\"name\":") && Whole(",\"size\":")
  {
    PlainIsWhole("\"kind\":");
    PlainIsWhole(",\"path\":");
    PlainIsWhole(",\"name\":");
    PlainIsWhole(",\"size\":");
  }

  /** The payload of a file can be carried by a token exactly when its kind, path and name fit. */
  lemma MembersFit(f: File)
    ensures Whole(Members(f)) <==> Fits(f.kind) && Fits(f.path) && Fits(f.name)
  {
    hide Whole, Fits, Quoted;
    FieldNamesArePlain();
    QuotedFits(f.kind);
    QuotedFits(f.path);
    QuotedFits(f.name);
    var kind := "\"kind\":" + Quoted(f.kind);
    var path := kind + ",\"path\":" + Quoted(f.path);
    var name := path + ",\"name\":" + Quoted(f.name);
    WholeJoin("\"kind\":", Quoted(f.kind));
    WholeJoin(kind, ",\"path\":");
    WholeJoin(kind + ",\"path\":", Quoted(f.path));
    WholeJoin(path, ",\"name\":");
    WholeJoin(path + ",\"name\":", Quoted(f.name));
    if f.size.Some? {
      DigitsAreWhole(f.size.value);
      WholeJoin(",\"size\":", Digits(f.size.value));
      WholeJoin(name, ",\"size\":" + Digits(f.size.value));
      assert Members(f) == name + (",\"size\":" + Digits(f.size.value));
    } else {
      assert Members(f) == name + "";
      assert Members(f) == name;
    }
  }

  // ----- Round trip -----

  /** The file can be carried and is read back from its own payload. */
  predicate Readable(parse: Parser, f: File) {
    Whole(Members(f)) && Trim(f.path) != "" && parse(Json(f)) == Some(f)
  }

  lemma TokenParts(before: string, f: File, rest: string)
    ensures var s := before + AttachmentToken(f) + rest;
      && s == before + "[[file:{" + Members(f) + "}]]" + rest
      && |AttachmentToken(f)| == |Members(f)| + 11
      && |before| + |Members(f)| + 9 <= |s|
      && s[|before| + 7..|before| + |Members(f)| + 9] == Json(f)
  {
    hide Members;
    var s := before + AttachmentToken(f) + rest;
    assert OPENING + ['{'] == "[[file:{" && ['}'] + "]]" == "}]]";
    assert AttachmentToken(f) == "[[file:{" + Members(f) + "}]]";
    assert s == (before + OPENING) + Json(f) + ("]]" + rest);
  }

  /** A readable token is taken out of the text and gives its file. */
  lemma ScanToken(parse: Parser, before: string, f: File, rest: string)
    requires Readable(parse, f)
    ensures var s := before + AttachmentToken(f) + rest;
      Scan(parse, s, |before|) == Prepended("", [f], Scan(parse, s, |before + AttachmentToken(f)|))
  {
    hide Members, Whole, Trim, OpensAt, ClosesAt;
    var s := before + AttachmentToken(f) + rest;
    TokenParts(before, f, rest);
    MatchesWhole(before, Members(f), rest);
    WholeParts(Members(f));
    var m := MatchAt(s, |before|);
    assert m == Some(|before| + 8 + |Members(f)|);
    assert FileOf(parse, s[|before| + 7..m.value + 1]) == Some(f);
    assert "" + Scan(parse, s, m.value + 3).text == Scan(parse, s, m.value + 3).text;
  }

  lemma WholeParts(s: string)
    ensures Whole(s) <==> OnOneLine(s) && !Cuts(s)
  {
  }

  predicate NoOpening(s: string) {
    forall i: nat :: i < |s| ==> !OpensAt(s, i)
  }

  lemma NoOpeningInFront(t: string, rest: string, i: nat)
    requires NoOpening(t) && i < |t| && (rest != "" ==> rest[0] == '\n')
    ensures !OpensAt(t + rest, i)
  {
    var s := t + rest;
    assert !OpensAt(t, i);
    if i + 8 <= |t| {
      assert forall k :: i <= k < i + 8 ==> s[k] == t[k];
    } else if i + 8 <= |s| {
      assert s[|t|] == rest[0];
    }
  }

  /** Text without tokens stays as it is. */
  lemma {:induction false} ScanText(parse: Parser, t: string, rest: string, i: nat)
    requires NoOpening(t) && i <= |t| && (rest != "" ==> rest[0] == '\n')
    ensures Scan(parse, t + rest, i) == Prepended(t[i..], [], Scan(parse, t + rest, |t|))
    decreases |t| - i
  {
    hide OpensAt, Closing, Scan, NoOpening, Prepended;
    var s := t + rest;
    if i == |t| {
      NothingInFront(Scan(parse, s, |t|));
    } else {
      ScanAt(parse, s, i);
      NoOpeningInFront(t, rest, i);
      ScanText(parse, t, rest, i + 1);
      PrependedTwice([t[i]], [], t[i + 1..], [], Scan(parse, s, |t|));
      assert s[i] == t[i] && t[i..] == [t[i]] + t[i + 1..];
      var none: seq<File> := [];
      assert none + none == none;
    }
  }

  function Newlines(n: nat): string {
    seq(n, _ => '\n')
  }

  lemma TokensSnoc(files: seq<File>)
    requires files != []
    ensures var init, last := files[..|files| - 1], files[|files| - 1];
      Tokens(files) == if init == [] then AttachmentToken(last) else Tokens(init) + "\n" + AttachmentToken(last)
  {
    var parts := seq(|files|, i requires 0 <= i < |files| => AttachmentToken(files[i]));
    var init := files[..|files| - 1];
    assert parts[..|parts| - 1] == seq(|init|, i requires 0 <= i < |init| => AttachmentToken(init[i]));
  }

  /** A newline in front of a token goes into the text. */
  lemma ScanNewline(parse: Parser, before: string, rest: string)
    ensures var s := before + "\n" + rest;
      Scan(parse, s, |before|) == Prepended("\n", [], Scan(parse, s, |before + "\n"|))
  {
    var s := before + "\n" + rest;
    assert s[|before|] == '\n' && !OpensAt(s, |before|);
  }

  /** The tokens of a message give their files in order and leave the newlines between them. */
  lemma {:induction false} ScanTokens(parse: Parser, before: string, files: seq<File>, rest: string)
    requires files != [] && forall f :: f in files ==> Readable(parse, f)
    ensures var s := before + Tokens(files) + rest;
      Scan(parse, s, |before|) == Prepended(Newlines(|files| - 1), files, Scan(parse, s, |before + Tokens(files)|))
  {
    hide Scan, AttachmentToken, Readable, Tokens, Newlines, Prepended;
    var init, last := files[..|files| - 1], files[|files| - 1];
    TokensSnoc(files);
    assert files == init + [last];
    if init == [] {
      ScanToken(parse, before, last, rest);
      NoNewlines();
    } else {
      ScanTokens(parse, before, init, "\n" + AttachmentToken(last) + rest);
      ScanNextToken(parse, before + Tokens(init), last, rest);
      NextTokenText(before, Tokens(init), AttachmentToken(last), rest);
      OneMoreNewline(|init| - 1);
      Regroup(Newlines(|init| - 1), init, "\n", last, Scan(parse, before + Tokens(files) + rest, |before + Tokens(files)|));
    }
  }

  lemma NoNewlines()
    ensures Newlines(0) == ""
  {
  }

  lemma OneMoreNewline(n: nat)
    ensures Newlines(n) + "\n" == Newlines(n + 1)
  {
  }

  lemma NextTokenText(before: string, tokens: string, token: string, rest: string)
    ensures before + tokens + ("\n" + token + rest) == before + (tokens + "\n" + token) + rest
    ensures before + tokens + "\n" + token == before + (tokens + "\n" + token)
    ensures before + tokens + "\n" + token + rest == before + (tokens + "\n" + token) + rest
  {
  }

  /** A further token behind a newline. */
  lemma ScanNextToken(parse: Parser, head: string, last: File, rest: string)
    requires Readable(parse, last)
    ensures var s := head + "\n" + AttachmentToken(last) + rest;
      Scan(parse, s, |head|) ==
        Prepended("\n", [], Prepended("", [last], Scan(parse, s, |head + "\n" + AttachmentToken(last)|)))
  {
    hide Scan, AttachmentToken, Readable, Prepended;
    var s := head + "\n" + AttachmentToken(last) + rest;
    assert s == head + "\n" + (AttachmentToken(last) + rest);
    ScanNewline(parse, head, AttachmentToken(last) + rest);
    ScanToken(parse, head + "\n", last, rest);
  }

  lemma Regroup(text: string, files: seq<File>, between: string, last: File, end: Parsed)
    ensures Prepended(text, files, Prepended(between, [], Prepended("", [last], end))) ==
            Prepended(text + between, files + [last], end)
  {
    assert text + (between + ("" + end.text)) == text + between + end.text;
    assert files + ([] + ([last] + end.files)) == files + [last] + end.files;
  }

  predicate NoTriple(s: string) {
    forall i :: 0 <= i && i + 2 < |s| ==> !(s[i] == '\n' && s[i + 1] == '\n' && s[i + 2] == '\n')
  }

  function AtMostTwo(k: nat): nat {
    if k < 2 then k else 2
  }

  lemma FewStep(s: string)
    requires s != ""
    ensures FewNewlines(s) == if Newlines(3) <= s then FewNewlines(s[1..]) else [s[0]] + FewNewlines(s[1..])
  {
    assert Newlines(3) == "\n\n\n";
    assert Newlines(3) <= s <==> |s| >= 3 && s[0] == '\n' && s[1] == '\n' && s[2] == '\n';
  }

  lemma {:induction false} RunInFront(k: nat, b: string)
    requires b == "" || b[0] != '\n'
    ensures FewNewlines(Newlines(k) + b) == Newlines(AtMostTwo(k)) + FewNewlines(b)
  {
    hide FewNewlines;
    var s := Newlines(k) + b;
    if k == 0 {
      assert s == b;
    } else {
      assert s[1..] == Newlines(k - 1) + b;
      RunInFront(k - 1, b);
      FewStep(s);
      assert Newlines(3) <= s <==> k >= 3 by {
        assert s[..k] == Newlines(k);
        assert k < 3 && b != "" ==> s[k] != '\n';
      }
      assert k < 3 ==> "\n" + (Newlines(k - 1) + FewNewlines(b)) == Newlines(k) + FewNewlines(b);
    }
  }

  lemma TripleInFront(a: string, c: string)
    requires a != "" && a[|a| - 1] != '\n'
    ensures Newlines(3) <= a + c <==> Newlines(3) <= a
  {
    if |a| < 3 {
      assert (a + c)[|a| - 1] == a[|a| - 1];
    } else {
      assert (a + c)[..3] == a[..3];
    }
  }

  lemma FirstOfTwo(a: string, c: string)
    requires a != ""
    ensures a + c != "" && (a + c)[0] == a[0] && (a + c)[1..] == a[1..] + c
  {
  }

  lemma ThreeTexts(a: string, b: string, c: string)
    ensures a + (b + c) == (a + b) + c && "" + c == c
  {
  }

  lemma NothingIsFew()
    ensures FewNewlines("") == ""
  {
  }

  lemma {:induction false} FewOfTwo(a: string, c: string)
    requires a == "" || a[|a| - 1] != '\n'
    ensures FewNewlines(a + c) == FewNewlines(a) + FewNewlines(c)
  {
    hide FewNewlines, Newlines;
    if a == "" {
      ThreeTexts("", "", c);
      ThreeTexts("", "", FewNewlines(c));
      NothingIsFew();
    } else {
      FewOfTwo(a[1..], c);
      FirstOfTwo(a, c);
      FewStep(a);
      FewStep(a + c);
      TripleInFront(a, c);
      ThreeTexts([a[0]], FewNewlines(a[1..]), FewNewlines(c));
    }
  }

  /** Each run of newlines keeps at most two, and everything else stays. */
  lemma RunsShrink(a: string, k: nat, b: string)
    requires (a == "" || a[|a| - 1] != '\n') && (b == "" || b[0] != '\n')
    ensures FewNewlines(a + (Newlines(k) + b)) == FewNewlines(a) + (Newlines(AtMostTwo(k)) + FewNewlines(b))
  {
    hide FewNewlines, Newlines;
    RunInFront(k, b);
    FewOfTwo(a, Newlines(k) + b);
  }

  lemma {:induction false} FewNewlinesAtEnd(t: string, k: nat) returns (j: nat)
    requires NoTriple(t) && (t != "" ==> t[|t| - 1] != '\n')
    ensures FewNewlines(t + Newlines(k)) == t + Newlines(j)
    decreases |t| + k
  {
    var s := t + Newlines(k);
    if s == "" {
      j := 0;
    } else if t == "" {
      if k >= 3 {
        assert s[1..] == "" + Newlines(k - 1);
        j := FewNewlinesAtEnd("", k - 1);
      } else {
        j := FewNewlinesAtEnd("", k - 1);
        assert s[1..] == "" + Newlines(k - 1);
        assert [s[0]] + ("" + Newlines(j)) == "" + Newlines(j + 1);
        j := j + 1;
      }
    } else {
      assert !(|s| >= 3 && s[0] == '\n' && s[1] == '\n' && s[2] == '\n') by {
        assert |t| >= 3 ==> s[0] == t[0] && s[1] == t[1] && s[2] == t[2];
        assert |t| <= 2 ==> s[|t| - 1] == t[|t| - 1];
      }
      assert s[1..] == t[1..] + Newlines(k);
      j := FewNewlinesAtEnd(t[1..], k);
      assert [t[0]] + (t[1..] + Newlines(j)) == t + Newlines(j);
    }
  }

  lemma {:induction false} TrimEndNewlines(t: string, k: nat)
    requires TrimEnd(t) == t
    ensures TrimEnd(t + Newlines(k)) == t
  {
    var s := t + Newlines(k);
    if k == 0 {
      assert s == t;
    } else {
      assert s[|s| - 1] == '\n' && s[..|s| - 1] == t + Newlines(k - 1);
      TrimEndNewlines(t, k - 1);
    }
  }

  /** Trailing newlines, however many, leave nothing behind. */
  lemma TidiedText(t: string, k: nat)
    requires TrimEnd(t) == t && NoTriple(t)
    ensures TrimEnd(FewNewlines(t + Newlines(k))) == t
  {
    var j := FewNewlinesAtEnd(t, k);
    TrimEndNewlines(t, j);
  }

  lemma {:induction false} NoTripleStays(s: string)
    requires NoTriple(s)
    ensures FewNewlines(s) == s
  {
    if s != "" {
      NoTripleStays(s[1..]);
      assert |s| >= 3 ==> !(s[0] == '\n' && s[0 + 1] == '\n' && s[0 + 2] == '\n');
    }
  }

  /** Without attachments, parsing gives back the text up to its trailing white space. */
  lemma TextRoundTrip(parse: Parser, text: string)
    requires NoOpening(text) && NoTriple(text)
    ensures Parse(parse, Message(text, [])) == Parsed(TrimEnd(text), [])
  {
    hide Scan, NoOpening, NoTriple, FewNewlines, TrimEnd;
    assert text == text + "" && text[0..] == text;
    ScanText(parse, text, "", 0);
    ScanEnd(parse, text);
    NoTripleStays(text);
    assert text + "" == text;
  }

  lemma ScanTokensAlone(parse: Parser, files: seq<File>)
    requires files != [] && forall f :: f in files ==> Readable(parse, f)
    ensures Scan(parse, Tokens(files), 0) == Parsed(Newlines(|files| - 1), files)
  {
    hide Scan, Readable, Tokens, Prepended;
    var s := Tokens(files);
    assert s == "" + s + "" && "" + s == s;
    ScanTokens(parse, "", files, "");
    ScanEnd(parse, s);
    PrependedToNothing(Newlines(|files| - 1), files);
  }

  lemma PrependedToNothing(text: string, files: seq<File>)
    ensures Prepended(text, files, Parsed("", [])) == Parsed(text, files)
  {
  }

  lemma ScanTokensBehind(parse: Parser, t: string, files: seq<File>)
    requires NoOpening(t) && files != [] && forall f :: f in files ==> Readable(parse, f)
    ensures Scan(parse, t + "\n" + "\n" + Tokens(files), 0) == Parsed(t + Newlines(|files| + 1), files)
  {
    hide Scan, Readable, Tokens, NoOpening, Prepended;
    var first, before := t + "\n", t + "\n" + "\n";
    var s := before + Tokens(files);
    assert s == t + ("\n" + "\n" + Tokens(files)) && t[0..] == t;
    ScanText(parse, t, "\n" + "\n" + Tokens(files), 0);
    assert s == t + "\n" + ("\n" + Tokens(files));
    ScanNewline(parse, t, "\n" + Tokens(files));
    assert s == first + "\n" + Tokens(files);
    ScanNewline(parse, first, Tokens(files));
    assert s == before + Tokens(files) + "";
    ScanTokens(parse, before, files, "");
    ScanEnd(parse, s);
    PrependedToNothing(Newlines(|files| - 1), files);
    TwoNewlines(t, files);
  }

  lemma TwoNewlines(t: string, files: seq<File>)
    requires files != []
    ensures Prepended(t, [], Prepended("\n", [], Prepended("\n", [], Parsed(Newlines(|files| - 1), files)))) ==
            Parsed(t + Newlines(|files| + 1), files)
  {
    assert "\n" + ("\n" + Newlines(|files| - 1)) == Newlines(|files| + 1);
    assert [] + ([] + ([] + files)) == files;
  }

  lemma MessageWithText(text: string, files: seq<File>)
    requires files != [] && Trim(text) != ""
    ensures Message(text, files) == Trim(text) + "\n" + "\n" + Tokens(files)
  {
    assert "\n\n" == "\n" + "\n";
    assert Trim(text) + ("\n" + "\n") == Trim(text) + "\n" + "\n";
  }

  /** With attachments, printing a message and parsing it again gives back the trimmed text and the files,
      in order. */
  lemma MessageRoundTrip(parse: Parser, text: string, files: seq<File>)
    requires NoOpening(Trim(text)) && NoTriple(Trim(text))
    requires files != [] && forall f :: f in files ==> Readable(parse, f)
    ensures Parse(parse, Message(text, files)) == Parsed(Trim(text), files)
  {
    hide Scan, Readable, Tokens, NoOpening, NoTriple, FewNewlines, TrimEnd;
    var t := Trim(text);
    TrimTwice(text);
    if t == "" {
      ScanTokensAlone(parse, files);
      assert Newlines(|files| - 1) == t + Newlines(|files| - 1);
      TidiedText(t, |files| - 1);
    } else {
      MessageWithText(text, files);
      ScanTokensBehind(parse, t, files);
      TidiedText(t, |files| + 1);
    }
  }

  lemma ScanEnd(parse: Parser, s: string)
    ensures Scan(parse, s, |s|) == Parsed("", [])
  {
  }

  lemma TrimTwice(text: string)
    ensures TrimEnd(Trim(text)) == Trim(text)
  {
  }

  lemma BracketStays(text: string)
    requires text != "" && text[0] == '['
    ensures TrimEnd(FewNewlines(text)) != ""
  {
    var few := FewNewlines(text);
    assert few[0] == '[' && !IsSpace('[');
  }

  /** What a match at the start of a token captures is its payload, or the payload cut short. */
  lemma CapturedPayload(f: File)
    ensures var s := AttachmentToken(f);
      && s != "" && s[0] == '['
      && (MatchAt(s, 0).None? ==> !Whole(Members(f)))
      && (MatchAt(s, 0).Some? ==>
            && 0 <= MatchAt(s, 0).value - 6 <= |Json(f)|
            && s[7..MatchAt(s, 0).value + 1] == Json(f)[..MatchAt(s, 0).value - 6]
            && (MatchAt(s, 0).value - 6 == |Json(f)| <==> Whole(Members(f))))
  {
    hide Members, OpensAt, ClosesAt, MatchAt, Whole;
    var s := AttachmentToken(f);
    TokenParts("", f, "");
    assert "" + s + "" == s;
    MatchesWhole("", Members(f), "");
    WholeParts(Members(f));
    assert s == "" + "[[file:{" + Members(f) + "}]]" + "";
    if MatchAt(s, 0).Some? {
      assert s[7..|Members(f)| + 9] == Json(f);
      assert s[7..MatchAt(s, 0).value + 1] == s[7..|Members(f)| + 9][..MatchAt(s, 0).value - 6];
    }
  }

  /** Reading what an unreadable token captures gives no file. */
  lemma NoFileCaptured(parse: Parser, f: File, payload: string)
    requires parse(Json(f)) == Some(f) && forall k: nat :: k < |Json(f)| ==> parse(Json(f)[..k]).None?
    requires payload <= Json(f) && (payload == Json(f) ==> Trim(f.path) == "")
    ensures FileOf(parse, payload).None?
  {
    hide Json, Trim;
    assert payload == Json(f)[..|payload|];
    assert |payload| == |Json(f)| ==> payload == Json(f);
  }

  /** A token whose match ends early, or whose path is blank, stays in the text. */
  lemma UnreadableStays(parse: Parser, f: File)
    requires parse(Json(f)) == Some(f) && forall k: nat :: k < |Json(f)| ==> parse(Json(f)[..k]).None?
    requires !Whole(Members(f)) || Trim(f.path) == ""
    ensures var text := Scan(parse, AttachmentToken(f), 0).text; text != "" && text[0] == '['
  {
    hide Scan, Members, MatchAt, Trim, Whole, AttachmentToken, Json, FileOf;
    var s := AttachmentToken(f);
    CapturedPayload(f);
    ScanAt(parse, s, 0);
    var m := MatchAt(s, 0);
    if m.Some? {
      NoFileCaptured(parse, f, s[7..m.value + 1]);
      FirstStays(s, m.value + 3, Scan(parse, s, m.value + 3).text);
    }
  }

  lemma FirstStays(s: string, n: nat, rest: string)
    requires 0 < n <= |s|
    ensures (s[0..n] + rest)[0] == s[0]
  {
  }

  /** Exactly which attachments survive alone, given that JSON reads its own output and no part of it cut
      short: those whose kind, path and name fit and whose path is not blank. */
  lemma TokenRoundTripIff(parse: Parser, f: File)
    requires parse(Json(f)) == Some(f) && forall k: nat :: k < |Json(f)| ==> parse(Json(f)[..k]).None?
    ensures Parse(parse, AttachmentToken(f)) == Parsed("", [f]) <==>
      Fits(f.kind) && Fits(f.path) && Fits(f.name) && Trim(f.path) != ""
  {
    hide Scan, Members, Fits, Whole, Trim, AttachmentToken, FewNewlines, TrimEnd;
    MembersFit(f);
    var s := AttachmentToken(f);
    if Whole(Members(f)) && Trim(f.path) != "" {
      assert "" + s + "" == s && "" + s == s;
      ScanToken(parse, "", f, "");
      ScanEnd(parse, s);
      NothingIsTidy();
      assert Prepended("", [f], Parsed("", [])) == Parsed("", [f]);
    } else {
      UnreadableStays(parse, f);
      BracketStays(Scan(parse, s, 0).text);
    }
  }

  lemma NothingIsTidy()
    ensures TrimEnd(FewNewlines("")) == ""
  {
  }
}

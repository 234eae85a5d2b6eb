/**
 * Writing variables into an `.env` file in place: the operator's own lines stay, and each key ends up
 * with exactly one assignment.
 */
module EnvMerge {
  import opened Options
  import Texts

  type Line = string

  datatype Var = Var(key: string, value: string)

  /** What a line assigns, and whether it is commented out. */
  datatype Assignment = Assignment(commented: bool, key: string, value: string)

  // ---- Reading a line ----

  predicate Space(c: char) { Texts.SpaceCode(c as int) }

  predicate WordChar(c: char) { 'a' <= c <= 'z' || 'A' <= c <= 'Z' || '0' <= c <= '9' || c == '_' }

  /** What `.` does not match. */
  predicate Terminator(c: char) { c == '\n' || c == '\r' || c == '\U{2028}' || c == '\U{2029}' }

  /** The code points that the pattern's classes stand for. */
  lemma ClassesAre(c: char)
    ensures WordChar(c) <==> 48 <= c as int <= 57 || 65 <= c as int <= 90 || c as int == 95 || 97 <= c as int <= 122
    ensures Terminator(c) <==> c as int in {10, 13, 8232, 8233}
    ensures Space(c) <==> 9 <= c as int <= 13 || 8192 <= c as int <= 8202 ||
                          c as int in {32, 160, 5760, 8232, 8233, 8239, 8287, 12288, 65279}
  {}

  predicate AllSpaces(s: string) { forall i :: 0 <= i < |s| ==> Space(s[i]) }
  predicate AllWord(s: string) { forall i :: 0 <= i < |s| ==> WordChar(s[i]) }
  predicate NoTerminator(s: string) { forall i :: 0 <= i < |s| ==> !Terminator(s[i]) }

  function SkipSpaces(s: string): (r: string)
    ensures |r| <= |s|
    ensures r == "" || !Space(r[0])
  {
    if s != "" && Space(s[0]) then SkipSpaces(s[1..]) else s
  }

  function WordOf(s: string): (r: string)
    ensures r <= s
    ensures AllWord(r)
  {
    if s != "" && WordChar(s[0]) then [s[0]] + WordOf(s[1..]) else ""
  }

  predicate Starts(s: string, c: char) { s != "" && s[0] == c }

  /** The text behind an `export` and its spaces. */
  function SkipExport(s: string): string {
    var w := WordOf(s);
    if w == "export" && |s| > |w| && Space(s[|w|]) then SkipSpaces(s[|w|..]) else s
  }

  function ParseBare(s: string, commented: bool): Option<Assignment> {
    var key := WordOf(s);
    var rest := SkipSpaces(s[|key|..]);
    if key != "" && Starts(rest, '=') && NoTerminator(rest[1..])
    then Some(Assignment(commented, key, rest[1..])) else None
  }

  function Parse(line: Line): Option<Assignment> {
    var s := SkipSpaces(line);
    if Starts(s, '#') then ParseBare(SkipExport(SkipSpaces(s[1..])), true) else ParseBare(SkipExport(s), false)
  }

  /** A name such as `VAPID_PUBLIC_KEY`. */
  predicate PlainKey(key: string) { key != "" && AllWord(key) && key != "export" }

  /** The shape that the regular expression for `key` asks of a line, with its two groups. */
  ghost predicate Shape(line: Line, key: string, commented: bool, value: string) {
    exists front: string, mark: string, exporting: string, gap: string ::
      Layout(line, key, commented, value, front, mark, exporting, gap)
  }

  ghost predicate Layout(line: Line, key: string, commented: bool, value: string,
                         front: string, mark: string, exporting: string, gap: string) {
    Laid(line, key, commented, value, front, mark, exporting, gap) && NoTerminator(value)
  }

  /** The same with a value that may hold any characters. */
  ghost predicate Laid(line: Line, key: string, commented: bool, value: string,
                       front: string, mark: string, exporting: string, gap: string) {
    && line == front + (mark + (exporting + (key + (gap + ("=" + value)))))
    && AllSpaces(front) && AllSpaces(gap)
    && (if commented then Starts(mark, '#') && AllSpaces(mark[1..]) else mark == "")
    && (exporting == "" || (|exporting| > 6 && exporting[..6] == "export" && AllSpaces(exporting[6..])))
  }

  function Recognized(a: Assignment): Option<Assignment> { if NoTerminator(a.value) then Some(a) else None }

  lemma {:induction false} SkipsSpaces(a: string, s: string)
    requires AllSpaces(a) && (s == "" || !Space(s[0]))
    ensures SkipSpaces(a + s) == s
  {
    if a == "" {
      assert a + s == s;
    } else {
      assert (a + s)[1..] == a[1..] + s;
      SkipsSpaces(a[1..], s);
    }
  }

  lemma {:induction false} TakesWord(w: string, s: string)
    requires AllWord(w) && (s == "" || !WordChar(s[0]))
    ensures WordOf(w + s) == w
  {
    if w == "" {
      assert w + s == s;
    } else {
      assert (w + s)[1..] == w[1..] + s;
      TakesWord(w[1..], s);
    }
  }

  lemma BareIsParsed(key: string, gap: string, value: string, commented: bool)
    requires PlainKey(key) && AllSpaces(gap)
    ensures ParseBare(key + (gap + ("=" + value)), commented) == Recognized(Assignment(commented, key, value))
    ensures SkipExport(key + (gap + ("=" + value))) == key + (gap + ("=" + value))
  {
    var rest := gap + ("=" + value);
    assert gap != "" ==> rest[0] == gap[0];
    TakesWord(key, rest);
    assert (key + rest)[|key|..] == rest;
    SkipsSpaces(gap, "=" + value);
  }

  lemma ExportIsSkipped(e: string, s: string)
    requires |e| > 6 && e[..6] == "export" && AllSpaces(e[6..]) && s != "" && !Space(s[0])
    ensures SkipExport(e + s) == s
  {
    var spaces := e[6..];
    assert e + s == "export" + (spaces + s);
    assert Space(spaces[0]);
    TakesWord("export", spaces + s);
    assert ("export" + (spaces + s))[6..] == spaces + s;
    SkipsSpaces(spaces, s);
  }

  lemma TailIsParsed(exporting: string, key: string, gap: string, value: string, commented: bool)
    requires PlainKey(key) && AllSpaces(gap)
    requires exporting == "" || (|exporting| > 6 && exporting[..6] == "export" && AllSpaces(exporting[6..]))
    ensures
      var tail := exporting + (key + (gap + ("=" + value)));
      && tail != "" && WordChar(tail[0])
      && ParseBare(SkipExport(tail), commented) == Recognized(Assignment(commented, key, value))
  {
    var bare := key + (gap + ("=" + value));
    BareIsParsed(key, gap, value, commented);
    if exporting != "" {
      assert exporting[0] == exporting[..6][0] == 'e';
      ExportIsSkipped(exporting, bare);
    } else {
      assert exporting + bare == bare;
    }
  }

  lemma LiveIsParsed(front: string, tail: string)
    requires AllSpaces(front) && tail != "" && WordChar(tail[0])
    ensures Parse(front + tail) == ParseBare(SkipExport(tail), false)
  {
    SkipsSpaces(front, tail);
  }

  lemma CommentedIsParsed(front: string, mark: string, tail: string)
    requires AllSpaces(front) && Starts(mark, '#') && AllSpaces(mark[1..]) && tail != "" && WordChar(tail[0])
    ensures Parse(front + (mark + tail)) == ParseBare(SkipExport(tail), true)
  {
    SkipsSpaces(front, mark + tail);
    assert (mark + tail)[1..] == mark[1..] + tail;
    SkipsSpaces(mark[1..], tail);
  }

  /**
   * A line laid out as an assignment is taken for one exactly when its value holds no line terminator. A
   * carriage return left by foreign line ends is one, so such an old value would stay in the file.
   */
  lemma TakenExactlyWithoutTerminator(line: Line, key: string, commented: bool, value: string,
                                      front: string, mark: string, exporting: string, gap: string)
    requires PlainKey(key) && Laid(line, key, commented, value, front, mark, exporting, gap)
    ensures Parse(line) == if NoTerminator(value) then Some(Assignment(commented, key, value)) else None
  {
    var tail := exporting + (key + (gap + ("=" + value)));
    TailIsParsed(exporting, key, gap, value, commented);
    if commented {
      CommentedIsParsed(front, mark, tail);
    } else {
      assert mark + tail == tail;
      LiveIsParsed(front, tail);
    }
  }

  /** A line of that shape is read as its assignment. */
  lemma ShapeIsParsed(line: Line, key: string, commented: bool, value: string)
    requires PlainKey(key) && Shape(line, key, commented, value)
    ensures Parse(line) == Some(Assignment(commented, key, value))
  {
    var front: string, mark: string, exporting: string, gap: string :|
      Layout(line, key, commented, value, front, mark, exporting, gap);
    TakenExactlyWithoutTerminator(line, key, commented, value, front, mark, exporting, gap);
  }

  lemma {:induction false} SpacesInFront(s: string) returns (a: string)
    ensures s == a + SkipSpaces(s) && AllSpaces(a)
  {
    a := "";
    if s != "" && Space(s[0]) {
      var b := SpacesInFront(s[1..]);
      a := [s[0]] + b;
    }
  }

  lemma BareHasShape(s: string, commented: bool) returns (gap: string)
    requires ParseBare(s, commented).Some?
    ensures
      var a := ParseBare(s, commented).value;
      s == a.key + (gap + ("=" + a.value)) && AllSpaces(gap) && NoTerminator(a.value) && a.commented == commented
  {
    var key := WordOf(s);
    gap := SpacesInFront(s[|key|..]);
    var rest := SkipSpaces(s[|key|..]);
    assert rest == "=" + rest[1..];
    assert s == key + s[|key|..];
  }

  lemma ExportInFront(s: string) returns (e: string)
    ensures s == e + SkipExport(s)
    ensures e == "" || (|e| > 6 && e[..6] == "export" && AllSpaces(e[6..]))
  {
    e := "";
    var w := WordOf(s);
    if w == "export" && |s| > |w| && Space(s[|w|]) {
      var spaces := SpacesInFront(s[6..]);
      e := "export" + spaces;
      assert s == s[..6] + s[6..] && s[..6] == w;
      assert e[6..] == spaces;
    }
  }

  lemma HashInFront(s: string) returns (mark: string)
    requires Starts(s, '#')
    ensures s == mark + SkipSpaces(s[1..]) && Starts(mark, '#') && AllSpaces(mark[1..])
  {
    var spaces := SpacesInFront(s[1..]);
    mark := ['#'] + spaces;
    assert mark[1..] == spaces;
    assert s == ['#'] + (spaces + SkipSpaces(s[1..]));
  }

  lemma MarkInFront(line: Line) returns (front: string, mark: string, tail: string)
    ensures line == front + (mark + tail) && AllSpaces(front)
    ensures if Starts(SkipSpaces(line), '#') then Starts(mark, '#') && AllSpaces(mark[1..]) else mark == ""
    ensures Parse(line) == ParseBare(SkipExport(tail), Starts(SkipSpaces(line), '#'))
  {
    var s := SkipSpaces(line);
    front := SpacesInFront(line);
    if Starts(s, '#') {
      mark := HashInFront(s);
      tail := SkipSpaces(s[1..]);
    } else {
      mark, tail := "", s;
      assert mark + tail == s;
    }
  }

  /** A line read as an assignment has that shape. */
  lemma ParsedHasShape(line: Line, key: string, commented: bool, value: string)
    requires Parse(line) == Some(Assignment(commented, key, value))
    ensures Shape(line, key, commented, value)
  {
    var front, mark, tail := MarkInFront(line);
    var exporting := ExportInFront(tail);
    var gap := BareHasShape(SkipExport(tail), commented);
    assert Layout(line, key, commented, value, front, mark, exporting, gap);
  }

  /** Reading a line agrees with the regular expression, for every plain key. */
  lemma ParseIsTheRegex(line: Line, key: string, commented: bool, value: string)
    requires PlainKey(key)
    ensures Shape(line, key, commented, value) <==> Parse(line) == Some(Assignment(commented, key, value))
  {
    if Shape(line, key, commented, value) { ShapeIsParsed(line, key, commented, value); }
    if Parse(line) == Some(Assignment(commented, key, value)) { ParsedHasShape(line, key, commented, value); }
  }

  // ---- Lines ----

  predicate Assigns(line: Line, key: string) { Parse(line).Some? && Parse(line).value.key == key }

  function Written(v: Var): Line { v.key + "=" + v.value }

  /** A variable that can be written and read back: a plain key, and a value on one line without outer spaces. */
  predicate Writable(v: Var) {
    && PlainKey(v.key) && NoTerminator(v.value) && v.value != ""
    && !Space(v.value[0]) && !Space(v.value[|v.value| - 1])
  }

  lemma WrittenAssigns(v: Var)
    requires PlainKey(v.key) && NoTerminator(v.value)
    ensures Parse(Written(v)) == Some(Assignment(false, v.key, v.value))
  {
    BareIsParsed(v.key, "", v.value, false);
    var line := v.key + ("" + ("=" + v.value));
    assert Written(v) == line;
    assert WordChar(line[0]);
    assert SkipSpaces(line) == line;
  }

  /** A test for lines that assign the key. */
  function Is(key: string): Line -> bool { line => Assigns(line, key) }

  function Without(lines: seq<Line>, test: Line -> bool): seq<Line> {
    if lines == [] then []
    else if test(lines[0]) then Without(lines[1..], test)
    else [lines[0]] + Without(lines[1..], test)
  }

  /** The lines that pass, in order. */
  function Select(lines: seq<Line>, test: Line -> bool): seq<Line> {
    if lines == [] then []
    else if test(lines[0]) then [lines[0]] + Select(lines[1..], test)
    else Select(lines[1..], test)
  }

  function FirstAt(lines: seq<Line>, test: Line -> bool): (r: int)
    ensures -1 <= r < |lines|
  {
    if lines == [] then -1 else if test(lines[0]) then 0 else
    var r := FirstAt(lines[1..], test);
    if r < 0 then -1 else r + 1
  }

  /** The first line that passes becomes `line`, all others that pass go. */
  function Replace(lines: seq<Line>, test: Line -> bool, line: Line): seq<Line> {
    if lines == [] then []
    else if test(lines[0]) then [line] + Without(lines[1..], test)
    else [lines[0]] + Replace(lines[1..], test, line)
  }

  /** The lines after the pass over `vars`, and the lines it left to append. */
  function Pass(lines: seq<Line>, vars: seq<Var>): seq<Line> {
    if vars == [] then lines else
    var v := vars[|vars| - 1];
    Replace(Pass(lines, vars[..|vars| - 1]), Is(v.key), Written(v))
  }

  function Extra(lines: seq<Line>, vars: seq<Var>): seq<Line> {
    if vars == [] then [] else
    var v := vars[|vars| - 1];
    var missing := FirstAt(Pass(lines, vars[..|vars| - 1]), Is(v.key)) < 0;
    Extra(lines, vars[..|vars| - 1]) + if missing then [Written(v)] else []
  }

  /**
   * The comment line put above appended variables, `# --- Web Push (VAPID) ...`, in what matters of it: a
   * comment on one line whose first character behind the mark cannot start a key.
   */
  predicate IsHeader(line: Line) { |line| >= 3 && line[0] == '#' && line[1] == ' ' && line[2] == '-' && Unbroken(line) }

  predicate Unbroken(line: Line) { forall i :: 0 <= i < |line| ==> line[i] != '\n' }

  function Pop(lines: seq<Line>): (r: seq<Line>)
    ensures r <= lines
    ensures r == [] || r[|r| - 1] != ""
  {
    if lines != [] && lines[|lines| - 1] == "" then Pop(lines[..|lines| - 1]) else lines
  }

  function Merge(lines: seq<Line>, vars: seq<Var>, header: Line): seq<Line> {
    var body, extra := Pass(lines, vars), Extra(lines, vars);
    Pop(if extra == [] then body else Pop(body) + ["", header] + extra)
  }

  /** Replacing is what overwriting the first line that passes and filtering the rest comes to. */
  lemma {:induction false} ReplaceIs(lines: seq<Line>, test: Line -> bool, line: Line)
    ensures
      var f := FirstAt(lines, test);
      if f < 0 then Replace(lines, test, line) == lines
      else Replace(lines, test, line) == lines[..f] + ([line] + Without(lines[f + 1..], test)) &&
           test(lines[f]) && Without(lines[..f], test) == lines[..f]
  {
    if lines != [] && !test(lines[0]) {
      var rest := lines[1..];
      ReplaceIs(rest, test, line);
      var f := FirstAt(rest, test);
      assert lines == [lines[0]] + rest;
      if f >= 0 { ReplaceBehind(lines, f, [line] + Without(rest[f + 1..], test)); }
    }
  }

  lemma ReplaceBehind(lines: seq<Line>, f: nat, tail: seq<Line>)
    requires f + 1 < |lines|
    ensures
      var rest := lines[1..];
      && [lines[0]] + (rest[..f] + tail) == lines[..f + 1] + tail
      && lines[..f + 1][1..] == rest[..f] && lines[f + 2..] == rest[f + 1..]
      && lines[..f + 1] == [lines[0]] + rest[..f]
  {}

  method FindIndex(lines: seq<Line>, test: Line -> bool) returns (first: int)
    ensures first == FirstAt(lines, test)
  {
    first := -1;
    var i := 0;
    while i < |lines| && first < 0
      invariant 0 <= i <= |lines|
      invariant first >= 0 ==> first == FirstAt(lines, test)
      invariant first < 0 ==> first == -1
      invariant first < 0 ==>
                  FirstAt(lines, test) == (if FirstAt(lines[i..], test) < 0 then -1 else i + FirstAt(lines[i..], test))
    {
      assert lines[i..][1..] == lines[i + 1..];
      if test(lines[i]) { first := i; }
      i := i + 1;
    }
  }

  method DropOthers(lines: seq<Line>, first: nat, test: Line -> bool) returns (kept: seq<Line>)
    requires first < |lines|
    ensures kept == Without(lines[..first], test) + ([lines[first]] + Without(lines[first + 1..], test))
  {
    kept := [];
    ghost var tail := [lines[first]] + Without(lines[first + 1..], test);
    for i := 0 to first
      invariant kept + Without(lines[i..first], test) == Without(lines[..first], test)
    {
      assert lines[i..first][1..] == lines[i + 1..first];
      if !test(lines[i]) {
        kept := kept + [lines[i]];
      }
    }
    assert kept + [] == kept;
    kept := kept + [lines[first]];
    ghost var head := kept;
    for i := first + 1 to |lines|
      invariant kept + Without(lines[i..], test) == head + Without(lines[first + 1..], test)
    {
      assert lines[i..][1..] == lines[i + 1..];
      if !test(lines[i]) {
        kept := kept + [lines[i]];
      }
    }
    assert kept + [] == kept;
  }

  method MergeLines(input: seq<Line>, vars: seq<Var>, header: Line) returns (lines: seq<Line>)
    ensures lines == Merge(input, vars, header)
  {
    lines := input;
    var appended: seq<Line> := [];
    for i := 0 to |vars|
      invariant lines == Pass(input, vars[..i]) && appended == Extra(input, vars[..i])
    {
      assert vars[..i + 1][..i] == vars[..i];
      var v := vars[i];
      var first := FindIndex(lines, Is(v.key));
      ReplaceIs(lines, Is(v.key), Written(v));
      if first == -1 {
        appended := appended + [Written(v)];
      } else {
        assert lines[first := Written(v)][..first] == lines[..first];
        assert lines[first := Written(v)][first + 1..] == lines[first + 1..];
        lines := DropOthers(lines[first := Written(v)], first, Is(v.key));
      }
    }
    assert vars[..|vars|] == vars;
    if |appended| > 0 {
      lines := PopBlanks(lines);
      lines := lines + ["", header] + appended;
    }
    lines := PopBlanks(lines);
  }

  method PopBlanks(lines: seq<Line>) returns (r: seq<Line>)
    ensures r == Pop(lines)
  {
    r := lines;
    while |r| > 0 && r[|r| - 1] == ""
      invariant Pop(r) == Pop(lines)
    {
      r := r[..|r| - 1];
    }
  }

  // ---- What replacing does to the lines that pass some test ----

  lemma {:induction false} SelectSplit(a: seq<Line>, b: seq<Line>, test: Line -> bool)
    ensures Select(a + b, test) == Select(a, test) + Select(b, test)
  {
    if a == [] {
      assert a + b == b;
    } else {
      assert (a + b)[1..] == a[1..] + b;
      SelectSplit(a[1..], b, test);
    }
  }

  lemma {:induction false} FirstIsSelected(lines: seq<Line>, test: Line -> bool)
    ensures FirstAt(lines, test) < 0 <==> Select(lines, test) == []
  {
    if lines != [] { FirstIsSelected(lines[1..], test); }
  }

  ghost predicate Apart(a: Line -> bool, b: Line -> bool) { forall line :: !(a(line) && b(line)) }

  lemma {:induction false} WithoutSelected(lines: seq<Line>, test: Line -> bool, other: Line -> bool)
    ensures Select(Without(lines, test), test) == []
    ensures Apart(test, other) ==> Select(Without(lines, test), other) == Select(lines, other)
  {
    if lines != [] { WithoutSelected(lines[1..], test, other); }
  }

  lemma {:induction false} ReplaceSelected(lines: seq<Line>, test: Line -> bool, line: Line, other: Line -> bool)
    requires test(line)
    ensures Select(Replace(lines, test, line), test) == if Select(lines, test) == [] then [] else [line]
    ensures Apart(test, other) ==> Select(Replace(lines, test, line), other) == Select(lines, other)
  {
    if lines != [] {
      if test(lines[0]) {
        WithoutSelected(lines[1..], test, other);
      } else {
        ReplaceSelected(lines[1..], test, line, other);
      }
    }
  }

  // ---- What merging promises ----

  ghost predicate Good(vars: seq<Var>) {
    && (forall i :: 0 <= i < |vars| ==> PlainKey(vars[i].key) && NoTerminator(vars[i].value))
    && (forall i, j :: 0 <= i < j < |vars| ==> vars[i].key != vars[j].key)
  }

  lemma NamesArePlain()
    ensures PlainKey("SIGHTR_VAPID_PUBLIC") && PlainKey("SIGHTR_VAPID_PRIVATE") && PlainKey("SIGHTR_VAPID_SUBJECT")
  {
    assert AllWord("SIGHTR_VAPID_");
    assert AllWord("PUBLIC") && AllWord("PRIVATE") && AllWord("SUBJECT");
    assert "SIGHTR_VAPID_PUBLIC" == "SIGHTR_VAPID_" + "PUBLIC";
    assert "SIGHTR_VAPID_PRIVATE" == "SIGHTR_VAPID_" + "PRIVATE";
    assert "SIGHTR_VAPID_SUBJECT" == "SIGHTR_VAPID_" + "SUBJECT";
  }

  /** What the script writes can be merged: its three names, values without line ends, and its header. */
  lemma ScriptWritesGood(public: string, private: string, subject: string, rest: string)
    requires forall c :: c in public || c in private || c in subject || c in rest ==>
               c as int !in {10, 13, 8232, 8233}
    ensures Good([Var("SIGHTR_VAPID_PUBLIC", public), Var("SIGHTR_VAPID_PRIVATE", private),
                  Var("SIGHTR_VAPID_SUBJECT", subject)])
    ensures IsHeader("# -" + rest)
  {
    NamesArePlain();
    NoTerminatorMeans(public);
    NoTerminatorMeans(private);
    NoTerminatorMeans(subject);
    NoTerminatorMeans(rest);
    var keys := ["SIGHTR_VAPID_PUBLIC", "SIGHTR_VAPID_PRIVATE", "SIGHTR_VAPID_SUBJECT"];
    assert keys[0][14] != keys[1][14] && keys[0][13] != keys[2][13] && keys[1][13] != keys[2][13];
    var header := "# -" + rest;
    forall i | 0 <= i < |header|
      ensures header[i] != '\n'
    {
      if i >= 3 { assert header[i] == rest[i - 3]; }
    }
  }

  lemma NoTerminatorMeans(s: string)
    ensures NoTerminator(s) <==> forall c :: c in s ==> c as int !in {10, 13, 8232, 8233}
  {
    if NoTerminator(s) {
      forall c | c in s
        ensures c as int !in {10, 13, 8232, 8233}
      {
        var i :| 0 <= i < |s| && s[i] == c;
        ClassesAre(s[i]);
      }
    } else {
      var i :| 0 <= i < |s| && Terminator(s[i]);
      assert s[i] in s;
    }
  }

  /** A test apart from all the keys passes the same lines before and after. */
  lemma {:induction false} PassKeepsOthers(lines: seq<Line>, vars: seq<Var>, n: nat, other: Line -> bool)
    requires Good(vars) && n <= |vars|
    requires forall i :: 0 <= i < n ==> Apart(Is(vars[i].key), other)
    ensures Select(Pass(lines, vars[..n]), other) == Select(lines, other) &&
            Select(Extra(lines, vars[..n]), other) == []
  {
    if n > 0 {
      var v := vars[n - 1];
      var p, x := Pass(lines, vars[..n - 1]), Extra(lines, vars[..n - 1]);
      assert vars[..n][..n - 1] == vars[..n - 1];
      PassKeepsOthers(lines, vars, n - 1, other);
      WrittenAssigns(v);
      ReplaceSelected(p, Is(v.key), Written(v), other);
      assert Is(v.key)(Written(v)) && !other(Written(v));
      SelectSplit(x, [Written(v)], other);
      SelectSplit(x, [], other);
    }
  }

  /** What one more variable of the pass does to the lines that pass a test. */
  lemma SelectedMore(lines: seq<Line>, vars: seq<Var>, n: nat, test: Line -> bool)
    requires 0 < n <= |vars|
    ensures
      var v, p := vars[n - 1], Pass(lines, vars[..n - 1]);
      && Select(Pass(lines, vars[..n]), test) == Select(Replace(p, Is(v.key), Written(v)), test)
      && Select(Extra(lines, vars[..n]), test) ==
         Select(Extra(lines, vars[..n - 1]), test) +
         if FirstAt(p, Is(v.key)) < 0 && test(Written(v)) then [Written(v)] else []
  {
    var v, x := vars[n - 1], Extra(lines, vars[..n - 1]);
    assert vars[..n][..n - 1] == vars[..n - 1];
    SelectSplit(x, [Written(v)], test);
    SelectSplit(x, [], test);
  }

  lemma IsApart(a: string, b: string)
    ensures a != b ==> Apart(Is(a), Is(b))
  {}

  lemma WrittenIs(v: Var, key: string)
    requires PlainKey(v.key) && NoTerminator(v.value)
    ensures Is(key)(Written(v)) <==> key == v.key
  {
    WrittenAssigns(v);
  }

  lemma NotAssignedNow(lines: seq<Line>, vars: seq<Var>, n: nat, test: Line -> bool)
    requires 0 < n <= |vars| && PlainKey(vars[n - 1].key) && NoTerminator(vars[n - 1].value)
    requires Apart(Is(vars[n - 1].key), test)
    ensures Select(Pass(lines, vars[..n]), test) == Select(Pass(lines, vars[..n - 1]), test)
    ensures Select(Extra(lines, vars[..n]), test) == Select(Extra(lines, vars[..n - 1]), test)
  {
    var v := vars[n - 1];
    WrittenIs(v, v.key);
    SelectedMore(lines, vars, n, test);
    ReplaceSelected(Pass(lines, vars[..n - 1]), Is(v.key), Written(v), test);
  }

  lemma AssignedNow(lines: seq<Line>, vars: seq<Var>, n: nat)
    requires Good(vars) && 0 < n <= |vars|
    ensures
      var v := vars[n - 1];
      Select(Pass(lines, vars[..n]), Is(v.key)) + Select(Extra(lines, vars[..n]), Is(v.key)) == [Written(v)]
  {
    var v := vars[n - 1];
    var p := Pass(lines, vars[..n - 1]);
    forall i | 0 <= i < n - 1
      ensures Apart(Is(vars[i].key), Is(v.key))
    {
      IsApart(vars[i].key, v.key);
    }
    PassKeepsOthers(lines, vars, n - 1, Is(v.key));
    WrittenIs(v, v.key);
    SelectedMore(lines, vars, n, Is(v.key));
    ReplaceSelected(p, Is(v.key), Written(v), Is(v.key));
    FirstIsSelected(p, Is(v.key));
  }

  /** After the pass each variable is assigned once: in place, or among the lines to append. */
  lemma {:induction false} PassAssigns(lines: seq<Line>, vars: seq<Var>, n: nat, j: nat)
    requires Good(vars) && j < n <= |vars|
    ensures Select(Pass(lines, vars[..n]), Is(vars[j].key)) + Select(Extra(lines, vars[..n]), Is(vars[j].key)) ==
            [Written(vars[j])]
  {
    if j < n - 1 {
      PassAssigns(lines, vars, n - 1, j);
      IsApart(vars[n - 1].key, vars[j].key);
      NotAssignedNow(lines, vars, n, Is(vars[j].key));
    } else {
      AssignedNow(lines, vars, n);
    }
  }

  predicate AllBlank(lines: seq<Line>) { forall i :: 0 <= i < |lines| ==> lines[i] == "" }

  lemma {:induction false} PopDropsBlanks(lines: seq<Line>)
    ensures AllBlank(lines[|Pop(lines)|..])
    decreases |lines|
  {
    if lines != [] && lines[|lines| - 1] == "" {
      PopDropsBlanks(lines[..|lines| - 1]);
    }
  }

  lemma {:induction false} BlanksSelected(lines: seq<Line>, test: Line -> bool)
    requires AllBlank(lines)
    ensures Select(lines, test) == if test("") then lines else []
  {
    if lines != [] { BlanksSelected(lines[1..], test); }
  }

  lemma PopSelected(lines: seq<Line>, test: Line -> bool) returns (blanks: seq<Line>)
    ensures Select(lines, test) == Select(Pop(lines), test) + blanks && AllBlank(blanks)
    ensures !test("") ==> blanks == []
  {
    var p := Pop(lines);
    var tail := lines[|p|..];
    PopDropsBlanks(lines);
    BlanksSelected(tail, test);
    assert lines == p + tail;
    SelectSplit(p, tail, test);
    blanks := Select(tail, test);
  }

  lemma HeaderAssignsNothing(header: Line)
    requires IsHeader(header)
    ensures Parse(header).None?
  {
    assert SkipSpaces(header) == header;
    assert header[1..][1..] == header[2..];
    assert SkipSpaces(header[2..]) == header[2..];
    assert SkipSpaces(header[1..]) == header[2..];
    assert WordOf(header[2..]) == "";
  }

  /** What a test passes in the merged lines: what it passes in the pass, the header and the appended lines. */
  lemma MergeSelected(lines: seq<Line>, vars: seq<Var>, header: Line, test: Line -> bool)
    returns (kept: seq<Line>, blanks: seq<Line>)
    ensures Select(Pass(lines, vars), test) == kept + blanks && AllBlank(blanks) && (!test("") ==> blanks == [])
    ensures Select(Merge(lines, vars, header), test) ==
            if Extra(lines, vars) == [] then kept
            else kept + Select(["", header], test) + Select(Extra(lines, vars), test)
  {
    var body, extra := Pass(lines, vars), Extra(lines, vars);
    blanks := PopSelected(body, test);
    kept := Select(Pop(body), test);
    if extra != [] {
      ExtraIsNotBlank(lines, vars);
      SelectSplit(Pop(body) + ["", header], extra, test);
      SelectSplit(Pop(body), ["", header], test);
      var all := Pop(body) + ["", header] + extra;
      assert all[|all| - 1] == extra[|extra| - 1];
    }
  }

  lemma {:induction false} ExtraIsNotBlank(lines: seq<Line>, vars: seq<Var>)
    ensures Extra(lines, vars) != [] ==> Extra(lines, vars)[|Extra(lines, vars)| - 1] != ""
  {
    if vars != [] { ExtraIsNotBlank(lines, vars[..|vars| - 1]); }
  }

  lemma SelectHeader(header: Line, test: Line -> bool)
    ensures Select(["", header], test) == (if test("") then [""] else []) + (if test(header) then [header] else [])
  {
    assert ["", header] == [""] + [header];
    SelectSplit([""], [header], test);
  }

  /** In the merged lines the only assignment of each key, commented or not, is the new one. */
  lemma OneAssignment(lines: seq<Line>, vars: seq<Var>, header: Line, j: nat)
    requires Good(vars) && j < |vars| && IsHeader(header)
    ensures Select(Merge(lines, vars, header), Is(vars[j].key)) == [vars[j].key + "=" + vars[j].value]
  {
    OneWritten(lines, vars, header, j);
  }

  lemma OneWritten(lines: seq<Line>, vars: seq<Var>, header: Line, j: nat)
    requires Good(vars) && j < |vars| && IsHeader(header)
    ensures Select(Merge(lines, vars, header), Is(vars[j].key)) == [Written(vars[j])]
  {
    var test := Is(vars[j].key);
    PassAssigns(lines, vars, |vars|, j);
    assert vars[..|vars|] == vars;
    HeaderAssignsNothing(header);
    SelectHeader(header, test);
    var kept, blanks := MergeSelected(lines, vars, header, test);
    assert kept + [] == kept;
  }

  /** The line assigns none of the keys. */
  function Own(vars: seq<Var>): Line -> bool { line => forall i :: 0 <= i < |vars| ==> !Assigns(line, vars[i].key) }

  /**
   * The lines that assign none of the keys stay as they are, in order; only blank ones at the end may go,
   * and a blank line and the header come behind them when something is appended.
   */
  lemma OwnLinesStay(lines: seq<Line>, vars: seq<Var>, header: Line) returns (kept: seq<Line>, blanks: seq<Line>)
    requires Good(vars) && IsHeader(header)
    ensures Select(lines, Own(vars)) == kept + blanks && AllBlank(blanks)
    ensures Select(Merge(lines, vars, header), Own(vars)) ==
            if Extra(lines, vars) == [] then kept else kept + ["", header]
  {
    OwnIsApart(vars);
    PassKeepsOthers(lines, vars, |vars|, Own(vars));
    assert vars[..|vars|] == vars;
    HeaderIsOwn(vars, header);
    SelectHeader(header, Own(vars));
    kept, blanks := MergeSelected(lines, vars, header, Own(vars));
    HeaderBehind(kept, header);
  }

  lemma HeaderBehind(kept: seq<Line>, header: Line)
    ensures kept + ([""] + [header]) + [] == kept + ["", header]
  {}

  lemma OwnIsApart(vars: seq<Var>)
    ensures forall i :: 0 <= i < |vars| ==> Apart(Is(vars[i].key), Own(vars))
  {}

  lemma HeaderIsOwn(vars: seq<Var>, header: Line)
    requires IsHeader(header)
    ensures Own(vars)(header) && Own(vars)("")
  {
    HeaderAssignsNothing(header);
    assert Parse("").None?;
  }

  // ---- Where the new assignments stand ----

  ghost predicate NonePasses(lines: seq<Line>, test: Line -> bool) { forall i :: 0 <= i < |lines| ==> !test(lines[i]) }

  lemma {:induction false} ReplaceNone(lines: seq<Line>, test: Line -> bool, line: Line)
    requires NonePasses(lines, test)
    ensures Replace(lines, test, line) == lines && Without(lines, test) == lines
  {
    if lines != [] {
      assert forall i :: 0 <= i < |lines| - 1 ==> lines[1..][i] == lines[i + 1];
      ReplaceNone(lines[1..], test, line);
    }
  }

  lemma {:induction false} WithoutSplit(a: seq<Line>, b: seq<Line>, test: Line -> bool)
    ensures Without(a + b, test) == Without(a, test) + Without(b, test)
  {
    if a == [] {
      assert a + b == b;
    } else {
      assert (a + b)[1..] == a[1..] + b;
      WithoutSplit(a[1..], b, test);
    }
  }

  lemma {:induction false} ReplaceSplit(a: seq<Line>, b: seq<Line>, test: Line -> bool, line: Line)
    ensures Replace(a + b, test, line) ==
            Replace(a, test, line) + if NonePasses(a, test) then Replace(b, test, line) else Without(b, test)
  {
    if a == [] {
      assert a + b == b;
    } else {
      assert (a + b)[1..] == a[1..] + b;
      if test(a[0]) {
        WithoutSplit(a[1..], b, test);
      } else {
        assert NonePasses(a, test) <==> NonePasses(a[1..], test) by {
          assert forall i :: 0 <= i < |a| - 1 ==> a[1..][i] == a[i + 1];
          assert forall i :: 0 < i < |a| ==> a[i] == a[1..][i - 1];
        }
        ReplaceSplit(a[1..], b, test, line);
      }
    }
  }

  lemma {:induction false} ReplaceKeepsNone(lines: seq<Line>, test: Line -> bool, line: Line, other: Line -> bool)
    requires NonePasses(lines, other) && !other(line)
    ensures NonePasses(Replace(lines, test, line), other) && NonePasses(Without(lines, test), other)
  {
    if lines != [] {
      assert forall i :: 0 <= i < |lines| - 1 ==> lines[1..][i] == lines[i + 1];
      ReplaceKeepsNone(lines[1..], test, line, other);
    }
  }

  /** The line `at` is the first assignment of the key, with the same own lines in front as `before` has. */
  ghost predicate Placed(front: seq<Line>, at: Line, vars: seq<Var>, j: nat, before: seq<Line>)
    requires j < |vars|
  {
    && NonePasses(front, Is(vars[j].key)) && Assigns(at, vars[j].key)
    && Select(front, Own(vars)) == Select(before, Own(vars))
  }

  lemma PlaceKept(front: seq<Line>, at: Line, back: seq<Line>, vars: seq<Var>, j: nat, k: nat, before: seq<Line>)
    returns (front': seq<Line>, at': Line, back': seq<Line>)
    requires Good(vars) && j < |vars| && k < |vars| && Placed(front, at, vars, j, before)
    ensures Replace(front + ([at] + back), Is(vars[k].key), Written(vars[k])) == front' + ([at'] + back')
    ensures Placed(front', at', vars, j, before) && (at' == if k == j then Written(vars[j]) else at)
  {
    var test, line := Is(vars[k].key), Written(vars[k]);
    WrittenAssigns(vars[k]);
    ReplaceSplit(front, [at] + back, test, line);
    if k == j {
      ReplaceNone(front, test, line);
      front', at', back' := front, line, Without(back, test);
      assert ([at] + back)[1..] == back;
    } else {
      assert !test(at);
      front', at' := Replace(front, test, line), at;
      back' := if NonePasses(front, test) then Replace(back, test, line) else Without(back, test);
      assert ([at] + back)[1..] == back;
      ReplaceKeepsNone(front, test, line, Is(vars[j].key));
      OwnIsApart(vars);
      ReplaceSelected(front, test, line, Own(vars));
    }
  }

  lemma {:induction false} PassPlaces(lines: seq<Line>, vars: seq<Var>, n: nat, j: nat, before: seq<Line>, old': Line,
                                      after: seq<Line>)
    returns (front: seq<Line>, at: Line, back: seq<Line>)
    requires Good(vars) && j < |vars| && n <= |vars| && lines == before + ([old'] + after)
    requires NonePasses(before, Is(vars[j].key)) && Assigns(old', vars[j].key)
    ensures Pass(lines, vars[..n]) == front + ([at] + back) && Placed(front, at, vars, j, before)
    ensures j < n ==> at == Written(vars[j])
  {
    if n == 0 {
      front, at, back := before, old', after;
    } else {
      assert vars[..n][..n - 1] == vars[..n - 1];
      front, at, back := PassPlaces(lines, vars, n - 1, j, before, old', after);
      front, at, back := PlaceKept(front, at, back, vars, j, n - 1, before);
    }
  }

  lemma {:induction false} PopKeepsFront(front: seq<Line>, at: Line, back: seq<Line>)
    requires at != ""
    ensures Pop(front + ([at] + back)) == front + ([at] + Pop(back))
  {
    var all := front + ([at] + back);
    if back == [] {
      assert all[|all| - 1] == at;
    } else {
      var n := |back| - 1;
      assert all[|all| - 1] == back[n] && all[..|all| - 1] == front + ([at] + back[..n]);
      if back[n] == "" { PopKeepsFront(front, at, back[..n]); }
    }
  }

  /**
   * A key that was assigned is assigned where it was: in front of the new assignment stand the same lines of
   * the operator's own as in front of the first old one, in the same order.
   */
  lemma NewValueInPlace(lines: seq<Line>, vars: seq<Var>, header: Line, j: nat, before: seq<Line>, old': Line,
                        after: seq<Line>)
    returns (front: seq<Line>, back: seq<Line>)
    requires Good(vars) && j < |vars| && lines == before + ([old'] + after)
    requires NonePasses(before, Is(vars[j].key)) && Assigns(old', vars[j].key)
    ensures Merge(lines, vars, header) == front + ([vars[j].key + "=" + vars[j].value] + back)
    ensures Select(front, Own(vars)) == Select(before, Own(vars))
  {
    var at;
    front, at, back := PassPlaces(lines, vars, |vars|, j, before, old', after);
    assert vars[..|vars|] == vars;
    back := AppendKeepsFront(front, at, back, Extra(lines, vars), header);
  }

  lemma AppendKeepsFront(front: seq<Line>, at: Line, back: seq<Line>, extra: seq<Line>, header: Line)
    returns (back': seq<Line>)
    requires at != ""
    ensures
      var body := front + ([at] + back);
      Pop(if extra == [] then body else Pop(body) + ["", header] + extra) == front + ([at] + back')
  {
    PopKeepsFront(front, at, back);
    if extra == [] {
      back' := Pop(back);
    } else {
      var behind := Pop(back) + ["", header] + extra;
      assert front + ([at] + Pop(back)) + ["", header] + extra == front + ([at] + behind);
      PopKeepsFront(front, at, behind);
      back' := Pop(behind);
    }
  }

  /** The assignments of the keys that no line assigns, in the order given. */
  ghost function Missing(lines: seq<Line>, vars: seq<Var>): seq<Line> {
    if vars == [] then [] else
    var v := vars[|vars| - 1];
    Missing(lines, vars[..|vars| - 1]) + if NonePasses(lines, Is(v.key)) then [v.key + "=" + v.value] else []
  }

  lemma {:induction false} FirstAtMeans(lines: seq<Line>, test: Line -> bool)
    ensures FirstAt(lines, test) < 0 <==> NonePasses(lines, test)
    ensures NonePasses(lines, test) <==> Select(lines, test) == []
  {
    if lines != [] {
      FirstAtMeans(lines[1..], test);
      assert forall i :: 0 <= i < |lines| - 1 ==> lines[1..][i] == lines[i + 1];
      assert forall i :: 0 < i < |lines| ==> lines[i] == lines[1..][i - 1];
    }
  }

  lemma {:induction false} ExtraIsMissing(lines: seq<Line>, vars: seq<Var>, n: nat)
    requires Good(vars) && n <= |vars|
    ensures Extra(lines, vars[..n]) == Missing(lines, vars[..n])
  {
    if n > 0 {
      var front, test := vars[..n - 1], Is(vars[n - 1].key);
      assert vars[..n][..n - 1] == front;
      ExtraIsMissing(lines, vars, n - 1);
      PassKeepsOthers(lines, vars, n - 1, test);
      FirstAtMeans(lines, test);
      FirstAtMeans(Pass(lines, front), test);
    }
  }

  /** Keys that were not assigned come last, in the order given, behind a blank line and the header. */
  lemma NewKeysComeLast(lines: seq<Line>, vars: seq<Var>, header: Line) returns (front: seq<Line>)
    requires Good(vars)
    ensures Merge(lines, vars, header) ==
            front + if Missing(lines, vars) == [] then [] else ["", header] + Missing(lines, vars)
    ensures front == [] || front[|front| - 1] != ""
  {
    ExtraIsMissing(lines, vars, |vars|);
    assert vars[..|vars|] == vars;
    ExtraIsNotBlank(lines, vars);
    front := AppendedLast(Pass(lines, vars), Extra(lines, vars), header);
  }

  lemma AppendedLast(body: seq<Line>, extra: seq<Line>, header: Line) returns (front: seq<Line>)
    requires extra != [] ==> extra[|extra| - 1] != ""
    ensures Pop(if extra == [] then body else Pop(body) + ["", header] + extra) ==
            front + if extra == [] then [] else ["", header] + extra
    ensures front == [] || front[|front| - 1] != ""
  {
    front := Pop(body);
    if extra != [] {
      var all := front + ["", header] + extra;
      assert all[|all| - 1] == extra[|extra| - 1];
      assert all == front + (["", header] + extra);
    }
  }

  // ---- Reading a variable back ----

  function SkipEnd(s: string): (r: string)
    ensures r <= s
  {
    if s != "" && Space(s[|s| - 1]) then SkipEnd(s[..|s| - 1]) else s
  }

  function Trim(s: string): string { SkipEnd(SkipSpaces(s)) }

  predicate Live(line: Line, key: string) { Assigns(line, key) && !Parse(line).value.commented }

  /** The last live assignment's value, without outer spaces. */
  function Found(lines: seq<Line>, key: string): Option<string> {
    if lines == [] then None else
    var later := Found(lines[1..], key);
    if later.Some? then later else if Live(lines[0], key) then Some(Trim(Parse(lines[0]).value.value)) else None
  }

  function ReadVar(lines: seq<Line>, key: string): Option<string> {
    if Found(lines, key) == Some("") then None else Found(lines, key)
  }

  method ReadEnvLines(lines: seq<Line>, key: string) returns (r: Option<string>)
    ensures r == ReadVar(lines, key)
  {
    r := None;
    for i := 0 to |lines|
      invariant Found(lines, key) == if Found(lines[i..], key).Some? then Found(lines[i..], key) else r
    {
      assert lines[i..][1..] == lines[i + 1..];
      if Live(lines[i], key) { r := Some(Trim(Parse(lines[i]).value.value)); }
    }
    if r == Some("") { r := None; }
  }

  lemma {:induction false} FoundAmongAssignments(lines: seq<Line>, key: string)
    ensures Found(lines, key) == Found(Select(lines, Is(key)), key)
  {
    if lines != [] { FoundAmongAssignments(lines[1..], key); }
  }

  /** Without the spaces at both ends. */
  lemma {:induction false} TrimMeans(s: string) returns (a: string, b: string)
    ensures s == a + Trim(s) + b && AllSpaces(a) && AllSpaces(b)
    ensures Trim(s) != "" ==> !Space(Trim(s)[0]) && !Space(Trim(s)[|Trim(s)| - 1])
  {
    a := SpacesInFront(s);
    b := SpacesAtEnd(SkipSpaces(s));
    assert a + (Trim(s) + b) == a + Trim(s) + b;
  }

  lemma {:induction false} SpacesAtEnd(s: string) returns (b: string)
    ensures s == SkipEnd(s) + b && AllSpaces(b)
    ensures SkipEnd(s) != "" ==> !Space(SkipEnd(s)[|SkipEnd(s)| - 1])
  {
    b := "";
    if s != "" && Space(s[|s| - 1]) {
      var front := SpacesAtEnd(s[..|s| - 1]);
      b := front + [s[|s| - 1]];
      assert s == s[..|s| - 1] + [s[|s| - 1]];
    }
  }

  /** Of several live assignments the last one counts; commented ones do not. */
  lemma {:induction false} LastLiveCounts(before: seq<Line>, line: Line, after: seq<Line>, key: string, value: string)
    requires Parse(line) == Some(Assignment(false, key, value))
    requires forall k :: 0 <= k < |after| ==>
               Parse(after[k]).None? || Parse(after[k]).value.commented || Parse(after[k]).value.key != key
    ensures ReadVar(before + ([line] + after), key) == if Trim(value) == "" then None else Some(Trim(value))
  {
    NoneFound(after, key);
    assert ([line] + after)[1..] == after;
    FoundBehind(before, [line] + after, key);
  }

  lemma {:induction false} NoneFound(lines: seq<Line>, key: string)
    requires forall k :: 0 <= k < |lines| ==>
               Parse(lines[k]).None? || Parse(lines[k]).value.commented || Parse(lines[k]).value.key != key
    ensures Found(lines, key) == None
  {
    if lines != [] {
      assert forall k :: 0 <= k < |lines| - 1 ==> lines[1..][k] == lines[k + 1];
      NoneFound(lines[1..], key);
    }
  }

  lemma {:induction false} FoundBehind(a: seq<Line>, b: seq<Line>, key: string)
    requires Found(b, key).Some?
    ensures Found(a + b, key) == Found(b, key)
  {
    if a == [] {
      assert a + b == b;
    } else {
      assert (a + b)[1..] == a[1..] + b;
      FoundBehind(a[1..], b, key);
    }
  }

  /** Each variable reads back with its new value. */
  lemma ReadsBack(lines: seq<Line>, vars: seq<Var>, header: Line, j: nat)
    requires Good(vars) && IsHeader(header) && j < |vars| && Writable(vars[j])
    ensures ReadVar(Merge(lines, vars, header), vars[j].key) == Some(vars[j].value)
  {
    var v := vars[j];
    OneAssignment(lines, vars, header, j);
    FoundAmongAssignments(Merge(lines, vars, header), v.key);
    WrittenAssigns(v);
    assert [Written(v)][1..] == [];
    assert Trim(v.value) == v.value;
  }

  // ---- The whole text ----

  function Split(text: string): (lines: seq<Line>)
    ensures lines != []
  {
    if text == "" then [""] else
    var rest := Split(text[1..]);
    if text[0] == '\n' then [""] + rest else [[text[0]] + rest[0]] + rest[1..]
  }

  function Join(lines: seq<Line>): string {
    if lines == [] then "" else if |lines| == 1 then lines[0] else lines[0] + ("\n" + Join(lines[1..]))
  }

  /** Exactly one line break at the end. */
  function Render(lines: seq<Line>): string { Join(lines) + "\n" }

  function MergeEnv(text: string, vars: seq<Var>, header: Line): string { Render(Merge(Split(text), vars, header)) }

  ghost predicate AllUnbroken(lines: seq<Line>) { forall i :: 0 <= i < |lines| ==> Unbroken(lines[i]) }

  lemma {:induction false} SplitLine(line: Line, rest: string)
    requires Unbroken(line)
    ensures Split(line + ("\n" + rest)) == [line] + Split(rest)
  {
    var text := line + ("\n" + rest);
    if line == "" {
      assert text == "\n" + rest && text[1..] == rest;
    } else {
      assert text[1..] == line[1..] + ("\n" + rest);
      SplitLine(line[1..], rest);
      assert [line[0]] + line[1..] == line;
    }
  }

  lemma {:induction false} SplitJoined(lines: seq<Line>, rest: string)
    requires lines != [] && AllUnbroken(lines)
    ensures Split(Join(lines) + ("\n" + rest)) == lines + Split(rest)
  {
    if |lines| == 1 {
      SplitLine(lines[0], rest);
    } else {
      var tail := Join(lines[1..]) + ("\n" + rest);
      SplitJoined(lines[1..], rest);
      Reassociate(lines[0], Join(lines[1..]), "\n" + rest);
      SplitLine(lines[0], tail);
      assert [lines[0]] + (lines[1..] + Split(rest)) == lines + Split(rest);
    }
  }

  lemma Reassociate(a: string, b: string, c: string)
    ensures a + ("\n" + b) + c == a + ("\n" + (b + c))
  {}

  /** Splitting what was rendered gives the lines back, with the empty line behind the last break. */
  lemma SplitRendered(lines: seq<Line>)
    requires AllUnbroken(lines)
    ensures Split(Render(lines)) == if lines == [] then ["", ""] else lines + [""]
  {
    if lines == [] {
      SplitLine("", "");
      assert Join(lines) + "\n" == "" + ("\n" + "");
    } else {
      assert "\n" + "" == "\n";
      SplitJoined(lines, "");
    }
  }

  lemma {:induction false} SplitIsUnbroken(text: string)
    ensures AllUnbroken(Split(text))
  {
    if text != "" {
      SplitIsUnbroken(text[1..]);
      var rest := Split(text[1..]);
      assert Unbroken(rest[0]);
      if text[0] != '\n' { assert Unbroken([text[0]] + rest[0]); }
    }
  }

  lemma {:induction false} WithoutUnbroken(lines: seq<Line>, test: Line -> bool)
    requires AllUnbroken(lines)
    ensures AllUnbroken(Without(lines, test))
  {
    if lines != [] { WithoutUnbroken(lines[1..], test); }
  }

  lemma {:induction false} ReplaceUnbroken(lines: seq<Line>, test: Line -> bool, line: Line)
    requires AllUnbroken(lines) && Unbroken(line)
    ensures AllUnbroken(Replace(lines, test, line))
  {
    if lines != [] {
      if test(lines[0]) { WithoutUnbroken(lines[1..], test); } else { ReplaceUnbroken(lines[1..], test, line); }
    }
  }

  lemma WrittenUnbroken(v: Var)
    requires PlainKey(v.key) && NoTerminator(v.value)
    ensures Unbroken(Written(v))
  {
    forall i | 0 <= i < |Written(v)|
      ensures Written(v)[i] != '\n'
    {
      if i < |v.key| {
        assert WordChar(v.key[i]);
      } else if i > |v.key| {
        assert Written(v)[i] == v.value[i - |v.key| - 1];
      }
    }
  }

  lemma {:induction false} PassUnbroken(lines: seq<Line>, vars: seq<Var>)
    requires AllUnbroken(lines) && Good(vars)
    ensures AllUnbroken(Pass(lines, vars)) && AllUnbroken(Extra(lines, vars))
  {
    if vars != [] {
      var n := |vars| - 1;
      PassUnbroken(lines, vars[..n]);
      WrittenUnbroken(vars[n]);
      ReplaceUnbroken(Pass(lines, vars[..n]), Is(vars[n].key), Written(vars[n]));
    }
  }

  lemma PopUnbroken(lines: seq<Line>)
    requires AllUnbroken(lines)
    ensures AllUnbroken(Pop(lines))
  {}

  lemma AppendedUnbroken(body: seq<Line>, header: Line, extra: seq<Line>)
    requires AllUnbroken(body) && Unbroken(header) && AllUnbroken(extra)
    ensures AllUnbroken(body + ["", header] + extra)
  {}

  lemma MergeUnbroken(lines: seq<Line>, vars: seq<Var>, header: Line)
    requires AllUnbroken(lines) && Good(vars) && Unbroken(header)
    ensures AllUnbroken(Merge(lines, vars, header))
  {
    var body, extra := Pass(lines, vars), Extra(lines, vars);
    PassUnbroken(lines, vars);
    PopUnbroken(body);
    AppendedUnbroken(Pop(body), header, extra);
    PopUnbroken(Pop(body) + ["", header] + extra);
  }

  lemma {:induction false} WithoutNone(lines: seq<Line>, test: Line -> bool)
    requires Select(lines, test) == []
    ensures Without(lines, test) == lines
  {
    if lines != [] { WithoutNone(lines[1..], test); }
  }

  /** Replacing the one line that passes by itself changes nothing. */
  lemma {:induction false} ReplaceByItself(lines: seq<Line>, test: Line -> bool, line: Line)
    requires Select(lines, test) == [line]
    ensures Replace(lines, test, line) == lines
  {
    if test(lines[0]) {
      assert Select(lines, test)[1..] == Select(lines[1..], test);
      WithoutNone(lines[1..], test);
      assert lines == [line] + lines[1..];
    } else {
      ReplaceByItself(lines[1..], test, line);
    }
  }

  lemma {:induction false} PassSettled(lines: seq<Line>, vars: seq<Var>, n: nat)
    requires n <= |vars|
    requires forall i :: 0 <= i < n ==> Select(lines, Is(vars[i].key)) == [Written(vars[i])]
    ensures Pass(lines, vars[..n]) == lines && Extra(lines, vars[..n]) == []
  {
    if n > 0 {
      assert vars[..n][..n - 1] == vars[..n - 1];
      PassSettled(lines, vars, n - 1);
      ReplaceByItself(lines, Is(vars[n - 1].key), Written(vars[n - 1]));
      FirstIsSelected(lines, Is(vars[n - 1].key));
    }
  }

  lemma SelectedWithBlanks(lines: seq<Line>, blanks: seq<Line>, key: string)
    requires AllBlank(blanks)
    ensures Select(lines + blanks, Is(key)) == Select(lines, Is(key))
  {
    SelectSplit(lines, blanks, Is(key));
    BlanksSelected(blanks, Is(key));
  }

  lemma StillAssigned(lines: seq<Line>, blanks: seq<Line>, vars: seq<Var>)
    requires AllBlank(blanks)
    requires forall i :: 0 <= i < |vars| ==> Select(lines, Is(vars[i].key)) == [Written(vars[i])]
    ensures Pass(lines + blanks, vars) == lines + blanks && Extra(lines + blanks, vars) == []
  {
    forall i | 0 <= i < |vars|
      ensures Select(lines + blanks, Is(vars[i].key)) == [Written(vars[i])]
    {
      SelectedWithBlanks(lines, blanks, vars[i].key);
    }
    PassSettled(lines + blanks, vars, |vars|);
    assert vars[..|vars|] == vars;
  }

  lemma MergeSettled(lines: seq<Line>, blanks: seq<Line>, vars: seq<Var>, header: Line)
    requires AllBlank(blanks) && (lines == [] || lines[|lines| - 1] != "")
    requires forall i :: 0 <= i < |vars| ==> Select(lines, Is(vars[i].key)) == [Written(vars[i])]
    ensures Merge(lines + blanks, vars, header) == lines
  {
    StillAssigned(lines, blanks, vars);
    PopBehind(lines, blanks);
  }

  lemma {:induction false} PopBehind(lines: seq<Line>, blanks: seq<Line>)
    requires AllBlank(blanks) && (lines == [] || lines[|lines| - 1] != "")
    ensures Pop(lines + blanks) == lines
  {
    if blanks == [] {
      assert lines + blanks == lines;
    } else {
      var n := |blanks| - 1;
      assert (lines + blanks)[..|lines + blanks| - 1] == lines + blanks[..n];
      PopBehind(lines, blanks[..n]);
    }
  }

  lemma RenderedSplits(lines: seq<Line>) returns (blanks: seq<Line>)
    requires AllUnbroken(lines)
    ensures Split(Render(lines)) == lines + blanks && AllBlank(blanks)
  {
    SplitRendered(lines);
    blanks := if lines == [] then ["", ""] else [""];
  }

  /** The merged text splits into the merged lines and blank ones. */
  lemma MergedTextSplits(text: string, vars: seq<Var>, header: Line) returns (blanks: seq<Line>)
    requires Good(vars) && IsHeader(header)
    ensures Split(MergeEnv(text, vars, header)) == Merge(Split(text), vars, header) + blanks && AllBlank(blanks)
  {
    SplitIsUnbroken(text);
    MergeUnbroken(Split(text), vars, header);
    blanks := RenderedSplits(Merge(Split(text), vars, header));
  }

  /** Splitting takes a text apart at its line breaks and loses nothing. */
  lemma {:induction false} SplitIsTheText(text: string)
    ensures Join(Split(text)) == text && AllUnbroken(Split(text))
  {
    if text != "" {
      SplitIsTheText(text[1..]);
      SplitIsUnbroken(text);
      var rest := Split(text[1..]);
      if text[0] == '\n' {
        assert ([""] + rest)[1..] == rest;
        assert text == "\n" + text[1..];
      } else {
        JoinLonger(text[0], rest);
        assert text == [text[0]] + text[1..];
      }
    }
  }

  lemma JoinLonger(c: char, lines: seq<Line>)
    requires lines != []
    ensures Join([[c] + lines[0]] + lines[1..]) == [c] + Join(lines)
  {
    var all := [[c] + lines[0]] + lines[1..];
    assert all[1..] == lines[1..];
    if |lines| > 1 {
      var rest := "\n" + Join(lines[1..]);
      assert [c] + lines[0] + rest == [c] + (lines[0] + rest);
    }
  }

  /** The merged text ends in a line break, and in no more than one. */
  lemma EndsInOneBreak(text: string, vars: seq<Var>, header: Line)
    requires Good(vars) && IsHeader(header)
    ensures
      var t := MergeEnv(text, vars, header);
      && t != "" && t[|t| - 1] == '\n'
      && (|t| > 1 ==> t[|t| - 2] != '\n')
  {
    var lines := Merge(Split(text), vars, header);
    SplitIsUnbroken(text);
    MergeUnbroken(Split(text), vars, header);
    if lines != [] { JoinEnds(lines); }
  }

  lemma {:induction false} JoinEnds(lines: seq<Line>)
    requires lines != [] && AllUnbroken(lines) && lines[|lines| - 1] != ""
    ensures Join(lines) != "" && Join(lines)[|Join(lines)| - 1] != '\n'
  {
    if |lines| > 1 {
      assert lines[1..][|lines| - 2] == lines[|lines| - 1];
      assert AllUnbroken(lines[1..]) by { assert forall i :: 0 <= i < |lines| - 1 ==> lines[1..][i] == lines[i + 1]; }
      JoinEnds(lines[1..]);
    }
  }

  /** Merging the same variables again changes nothing. */
  lemma MergingTwiceIsMergingOnce(text: string, vars: seq<Var>, header: Line)
    requires Good(vars) && IsHeader(header)
    ensures MergeEnv(MergeEnv(text, vars, header), vars, header) == MergeEnv(text, vars, header)
  {
    var blanks := MergedTextSplits(text, vars, header);
    SettledOnce(Split(text), vars, header, blanks);
  }

  lemma SettledOnce(lines: seq<Line>, vars: seq<Var>, header: Line, blanks: seq<Line>)
    requires Good(vars) && IsHeader(header) && AllBlank(blanks)
    ensures Merge(Merge(lines, vars, header) + blanks, vars, header) == Merge(lines, vars, header)
  {
    forall i | 0 <= i < |vars|
      ensures Select(Merge(lines, vars, header), Is(vars[i].key)) == [Written(vars[i])]
    {
      OneAssignment(lines, vars, header, i);
    }
    MergeSettled(Merge(lines, vars, header), blanks, vars, header);
  }

  /** Reading the merged text gives each variable's new value, which has exactly one assignment there. */
  lemma MergedTextReadsBack(text: string, vars: seq<Var>, header: Line, j: nat)
    requires Good(vars) && IsHeader(header) && j < |vars| && Writable(vars[j])
    ensures ReadVar(Split(MergeEnv(text, vars, header)), vars[j].key) == Some(vars[j].value)
    ensures Select(Split(MergeEnv(text, vars, header)), Is(vars[j].key)) == [Written(vars[j])]
  {
    var blanks := MergedTextSplits(text, vars, header);
    ReadsBackWithBlanks(Split(text), vars, header, j, blanks);
  }

  lemma ReadsBackWithBlanks(lines: seq<Line>, vars: seq<Var>, header: Line, j: nat, blanks: seq<Line>)
    requires Good(vars) && IsHeader(header) && j < |vars| && Writable(vars[j]) && AllBlank(blanks)
    ensures
      var all := Merge(lines, vars, header) + blanks;
      ReadVar(all, vars[j].key) == Some(vars[j].value) && Select(all, Is(vars[j].key)) == [Written(vars[j])]
  {
    var merged, key := Merge(lines, vars, header), vars[j].key;
    OneAssignment(lines, vars, header, j);
    ReadsBack(lines, vars, header, j);
    SelectedWithBlanks(merged, blanks, key);
    FoundAmongAssignments(merged, key);
    FoundAmongAssignments(merged + blanks, key);
  }

  // ---- Old values that stay ----

  lemma {:induction false} Selected(lines: seq<Line>, test: Line -> bool, line: Line)
    requires test(line)
    ensures line in lines <==> line in Select(lines, test)
  {
    if lines != [] { Selected(lines[1..], test, line); }
  }

  /** The line behind its front spaces, comment mark and the spaces of that. */
  function Lead(line: Line): string {
    var s := SkipSpaces(line);
    if Starts(s, '#') then SkipSpaces(s[1..]) else s
  }

  lemma LeadOfLaid(front: string, mark: string, tail: string)
    requires AllSpaces(front) && tail != "" && WordChar(tail[0])
    requires mark == "" || (Starts(mark, '#') && AllSpaces(mark[1..]))
    ensures Lead(front + (mark + tail)) == tail
  {
    SkipsSpaces(front, mark + tail);
    if mark != "" {
      assert (mark + tail)[1..] == mark[1..] + tail;
      SkipsSpaces(mark[1..], tail);
    } else {
      assert mark + tail == tail;
    }
  }

  lemma LeadOfHeader(header: Line)
    requires IsHeader(header)
    ensures Lead(header) == header[2..]
  {
    assert SkipSpaces(header) == header && header[1..][1..] == header[2..];
    assert SkipSpaces(header[1..]) == header[2..];
  }

  lemma LaidIsNoHeader(line: Line, key: string, commented: bool, value: string,
                       front: string, mark: string, exporting: string, gap: string, header: Line)
    requires PlainKey(key) && IsHeader(header) && Laid(line, key, commented, value, front, mark, exporting, gap)
    ensures line != header && line != ""
  {
    TailIsParsed(exporting, key, gap, value, commented);
    LeadOfLaid(front, mark, exporting + (key + (gap + ("=" + value))));
    LeadOfHeader(header);
  }

  /** A line that assigns nothing is in the merged text exactly when it was in the text, unless it is the header. */
  lemma UnreadLineStays(text: string, vars: seq<Var>, header: Line, line: Line)
    requires Good(vars) && IsHeader(header) && Parse(line).None? && line != header && line != ""
    ensures line in Split(MergeEnv(text, vars, header)) <==> line in Split(text)
  {
    var blanks := MergedTextSplits(text, vars, header);
    var merged := Merge(Split(text), vars, header);
    assert line in Split(MergeEnv(text, vars, header)) <==> line in merged;
    var kept, others := OwnLinesStay(Split(text), vars, header);
    assert Own(vars)(line);
    Selected(Split(text), Own(vars), line);
    Selected(merged, Own(vars), line);
  }

  /** A line that assigns one of the keys is in the merged text only when it is the new assignment. */
  lemma ReadLineGoes(text: string, vars: seq<Var>, header: Line, j: nat, line: Line)
    requires Good(vars) && IsHeader(header) && j < |vars| && Assigns(line, vars[j].key) && line != Written(vars[j])
    ensures line !in Split(MergeEnv(text, vars, header))
  {
    var blanks := MergedTextSplits(text, vars, header);
    OneAssignment(Split(text), vars, header, j);
    Selected(Merge(Split(text), vars, header), Is(vars[j].key), line);
    assert Parse("").None?;
  }

  lemma OnceMarkedStaysExactly(text: string, vars: seq<Var>, header: Line, j: nat, line: Line, commented: bool,
                               value: string, front: string, mark: string, exporting: string, gap: string)
    requires Good(vars) && IsHeader(header) && j < |vars| && line != Written(vars[j])
    requires Laid(line, vars[j].key, commented, value, front, mark, exporting, gap)
    ensures line in Split(MergeEnv(text, vars, header)) <==> line in Split(text) && !NoTerminator(value)
  {
    TakenExactlyWithoutTerminator(line, vars[j].key, commented, value, front, mark, exporting, gap);
    if NoTerminator(value) {
      ReadLineGoes(text, vars, header, j, line);
    } else {
      LaidIsNoHeader(line, vars[j].key, commented, value, front, mark, exporting, gap, header);
      UnreadLineStays(text, vars, header, line);
    }
  }

  /** Nothing, or any number of comment marks with spaces behind each. */
  predicate Marks(marks: string) {
    marks == "" || (marks[0] == '#' && forall i :: 0 <= i < |marks| ==> marks[i] == '#' || Space(marks[i]))
  }

  /** There is a second mark. */
  predicate Doubled(marks: string) { exists i :: 0 < i < |marks| && marks[i] == '#' }

  /** An assignment behind any number of comment marks. */
  ghost predicate LaidBehind(line: Line, key: string, value: string, front: string, marks: string, exporting: string,
                             gap: string) {
    && line == front + (marks + (exporting + (key + (gap + ("=" + value)))))
    && AllSpaces(front) && AllSpaces(gap) && Marks(marks)
    && (exporting == "" || (|exporting| > 6 && exporting[..6] == "export" && AllSpaces(exporting[6..])))
  }

  lemma {:induction false} SkipsToMark(s: string, tail: string)
    requires (forall i :: 0 <= i < |s| ==> s[i] == '#' || Space(s[i])) && exists i :: 0 <= i < |s| && s[i] == '#'
    ensures Starts(SkipSpaces(s + tail), '#')
  {
    if Space(s[0]) {
      var i :| 0 <= i < |s| && s[i] == '#';
      assert s[1..][i - 1] == '#' && (s + tail)[1..] == s[1..] + tail;
      SkipsToMark(s[1..], tail);
    }
  }

  /** Behind two marks the pattern finds no assignment, and the line is not the header. */
  lemma DoubledIsUnread(front: string, marks: string, tail: string, header: Line)
    requires AllSpaces(front) && Marks(marks) && Doubled(marks) && IsHeader(header)
    ensures Parse(front + (marks + tail)) == None && front + (marks + tail) != header && front + (marks + tail) != ""
  {
    SkipsSpaces(front, marks + tail);
    var i :| 0 < i < |marks| && marks[i] == '#';
    assert marks[1..][i - 1] == '#' && (marks + tail)[1..] == marks[1..] + tail;
    SkipsToMark(marks[1..], tail);
    assert WordOf(SkipSpaces(marks[1..] + tail)) == "";
    LeadOfHeader(header);
    assert Lead(front + (marks + tail)) == SkipSpaces(marks[1..] + tail);
  }

  /**
   * The promise that no old assignment stays in the file fails for exactly two families of lines: an old
   * assignment of a merged key is still there afterwards exactly when its value holds a line terminator,
   * such as the carriage return of foreign line ends, or when it stands behind more than one comment mark.
   */
  lemma OldValueStaysExactly(text: string, vars: seq<Var>, header: Line, j: nat, line: Line, value: string,
                             front: string, marks: string, exporting: string, gap: string)
    requires Good(vars) && IsHeader(header) && j < |vars| && line != Written(vars[j])
    requires LaidBehind(line, vars[j].key, value, front, marks, exporting, gap)
    ensures line in Split(MergeEnv(text, vars, header)) <==>
            line in Split(text) && (!NoTerminator(value) || Doubled(marks))
  {
    if Doubled(marks) {
      DoubledIsUnread(front, marks, exporting + (vars[j].key + (gap + ("=" + value))), header);
      UnreadLineStays(text, vars, header, line);
    } else {
      assert marks != "" ==> Starts(marks, '#') && forall i :: 0 <= i < |marks[1..]| ==> marks[1..][i] == marks[i + 1];
      OnceMarkedStaysExactly(text, vars, header, j, line, marks != "", value, front, marks, exporting, gap);
    }
  }

  /** The new assignment is in the merged text. */
  lemma NewValueIsThere(text: string, vars: seq<Var>, header: Line, j: nat)
    requires Good(vars) && IsHeader(header) && j < |vars|
    ensures Written(vars[j]) in Split(MergeEnv(text, vars, header))
  {
    var blanks := MergedTextSplits(text, vars, header);
    OneAssignment(Split(text), vars, header, j);
    WrittenAssigns(vars[j]);
    Selected(Merge(Split(text), vars, header), Is(vars[j].key), Written(vars[j]));
  }

  /** In a file with foreign line ends the old value is kept beside the new one. */
  lemma CarriageReturnKeepsOldValue(header: Line, old': string, v: Var)
    requires IsHeader(header) && PlainKey(v.key) && NoTerminator(v.value) && Unbroken(old')
    ensures
      var merged := Split(MergeEnv(v.key + ("=" + (old' + "\r")) + "\n", [v], header));
      v.key + ("=" + (old' + "\r")) in merged && Written(v) in merged
  {
    var line := v.key + ("=" + (old' + "\r"));
    var text, vars := line + "\n", [v];
    assert Unbroken(line) by {
      forall i | 0 <= i < |line| ensures line[i] != '\n' { LineChar(v.key, old', i); }
    }
    SplitLine(line, "");
    assert text == line + ("\n" + "") && line in Split(text);
    assert !NoTerminator(old' + "\r") by { assert Terminator((old' + "\r")[|old'|]); }
    assert line == "" + ("" + ("" + (v.key + ("" + ("=" + (old' + "\r"))))));
    assert line[|line| - 1] == '\r';
    NotWritten(v, line);
    OldValueStaysExactly(text, vars, header, 0, line, old' + "\r", "", "", "", "");
    NewValueIsThere(text, vars, header, 0);
  }

  /** And so is one behind two comment marks, whatever the line ends. */
  lemma TwoMarksKeepOldValue(header: Line, old': string, v: Var)
    requires IsHeader(header) && PlainKey(v.key) && NoTerminator(v.value) && Unbroken(old')
    ensures
      var merged := Split(MergeEnv("##" + (v.key + ("=" + old')) + "\n", [v], header));
      "##" + (v.key + ("=" + old')) in merged && Written(v) in merged
  {
    var line := "##" + (v.key + ("=" + old'));
    var text, vars := line + "\n", [v];
    assert Unbroken(line) by {
      WrittenIsUnbroken(v.key, old');
    }
    SplitLine(line, "");
    assert text == line + ("\n" + "") && line in Split(text);
    assert WordChar(Written(v)[0]) && line[0] == '#';
    assert "##"[1] == '#' && Doubled("##");
    assert line == "" + ("##" + ("" + (v.key + ("" + ("=" + old')))));
    OldValueStaysExactly(text, vars, header, 0, line, old', "", "##", "", "");
    NewValueIsThere(text, vars, header, 0);
  }

  lemma WrittenIsUnbroken(key: string, old': string)
    requires AllWord(key) && Unbroken(old')
    ensures Unbroken("##" + (key + ("=" + old')))
  {
    var line := "##" + (key + ("=" + old'));
    forall i | 0 <= i < |line|
      ensures line[i] != '\n'
    {
      if 2 <= i < |key| + 2 {
        assert WordChar(key[i - 2]) && line[i] == key[i - 2];
      } else if i > |key| + 2 {
        assert line[i] == old'[i - |key| - 3];
      }
    }
  }

  lemma LineChar(key: string, old': string, i: nat)
    requires AllWord(key) && Unbroken(old') && i < |key| + 2 + |old'|
    ensures (key + ("=" + (old' + "\r")))[i] != '\n'
  {
    if i < |key| {
      assert WordChar(key[i]);
    } else if i > |key| && i < |key| + 1 + |old'| {
      assert (key + ("=" + (old' + "\r")))[i] == old'[i - |key| - 1];
    }
  }

  lemma NotWritten(v: Var, line: Line)
    requires PlainKey(v.key) && NoTerminator(v.value) && line != "" && line[|line| - 1] == '\r'
    ensures line != Written(v)
  {
    var w := Written(v);
    if v.value != "" {
      assert w[|w| - 1] == v.value[|v.value| - 1];
      assert !Terminator(v.value[|v.value| - 1]);
    }
  }

  /**
   * A line that ends in a carriage return is not an assignment, whatever its key and value, and without
   * the carriage return it is one.
   */
  lemma CarriageReturnHidesAssignment(key: string, value: string)
    requires PlainKey(key) && NoTerminator(value)
    ensures Parse(key + "=" + value + "\r") == None
    ensures Parse(key + "=" + value) == Some(Assignment(false, key, value))
  {
    WrittenAssigns(Var(key, value));
    var s, rest := key + "=" + value + "\r", "=" + value + "\r";
    assert s == key + rest;
    assert WordChar(s[0]) && SkipSpaces(s) == s;
    TakesWord(key, rest);
    assert (key + rest)[|key|..] == rest;
    assert SkipExport(s) == s;
    assert rest[1..] == value + "\r" && rest[1..][|value|] == '\r';
  }
}

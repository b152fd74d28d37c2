/** The init record's two sed programs (provision/provision.sh, recorded_root and
    retire_initial_root): one prints the root token, the other blanks it.

    sed works on the pattern space, one line without its newline, so a text is a
    sequence of lines. */
module InitRecord {

  type Line = s: string | '\n' !in s
  type Text = seq<Line>

  const KEY: string := "\"root_token\":"

  // ---------------------------------------------------------- the regular expression

  predicate Blank(s: string) {
    forall i | 0 <= i < |s| :: s[i] == ' '
  }

  /** What `^ *"root_token": *"\([^"]*\)".*$` means: spaces, the key, spaces, a quoted
      value that holds no quote, and anything. */
  predicate Matches(line: string, m: Match)
    requires m.Match?
  {
    && Blank(m.indent) && Blank(m.gap) && '"' !in m.value
    && line == m.indent + (KEY + (m.gap + (['"'] + (m.value + (['"'] + m.rest)))))
  }

  datatype Match = NoMatch | Match(indent: string, gap: string, value: string, rest: string)

  // ------------------------------------------------------------------- the matcher

  /** The longest run of leading spaces, as ` *` takes it. */
  function Spaces(s: string): (n: nat)
    ensures n <= |s| && Blank(s[..n])
    ensures n < |s| ==> s[n] != ' '
  {
    if s != [] && s[0] == ' ' then 1 + Spaces(s[1..]) else 0
  }

  /** The offset of the first quote, or the length. */
  function Quote(s: string): (n: nat)
    ensures n <= |s| && '"' !in s[..n]
    ensures n < |s| ==> s[n] == '"'
  {
    if s == [] || s[0] == '"' then 0
    else
      var n := 1 + Quote(s[1..]);
      assert s[..n] == [s[0]] + s[1..][..n - 1];
      n
  }

  function FindEnd(indent: string, gap: string, s: string): (m: Match)
    ensures m.Match? ==> m.indent == indent && m.gap == gap && '"' !in m.value && s == m.value + (['"'] + m.rest)
  {
    var q := Quote(s);
    if q == |s| then NoMatch
    else
      Around(s, q);
      Match(indent, gap, s[..q], s[q + 1..])
  }

  lemma Around(s: string, i: nat)
    requires i < |s|
    ensures s == s[..i] + ([s[i]] + s[i + 1..])
  {
  }

  function FindValue(indent: string, s: string): (m: Match)
    ensures m.Match? ==> m.indent == indent && Blank(m.gap) && '"' !in m.value
                         && s == m.gap + (['"'] + (m.value + (['"'] + m.rest)))
  {
    var b := Spaces(s);
    if b == |s| || s[b] != '"' then NoMatch
    else
      Around(s, b);
      var gap, rest := s[..b], s[b + 1..];
      FindEnd(indent, gap, rest)
  }

  function Find(line: string): (m: Match)
    ensures m.Match? ==> Matches(line, m)
  {
    var a := Spaces(line);
    if !(KEY <= line[a..]) then NoMatch
    else
      Split(line, a, KEY);
      FindValue(line[..a], line[a..][|KEY|..])
  }

  lemma Split(line: string, a: nat, key: string)
    requires a <= |line| && key <= line[a..]
    ensures line == line[..a] + (key + line[a..][|key|..])
  {
  }

  /** `sed -n 's/.../\1/p'` on one line: the value, if the line matches. */
  function Extract(line: Line): (r: seq<string>)
    ensures forall i | 0 <= i < |r| :: '\n' !in r[i]
  {
    var m := Find(line);
    if m.Match? then
      assert forall i | 0 <= i < |m.value| :: m.value[i] in line;
      [m.value]
    else []
  }

  /** The replacement text `\1"` with everything behind the closing quote. */
  function Emptied(m: Match): string
    requires m.Match?
  {
    m.indent + (KEY + (m.gap + (['"'] + ("" + (['"'] + m.rest)))))
  }

  /** `sed 's/.../\1"/'` on one line: the value is dropped, all else is kept. */
  function ScrubLine(line: Line): Line {
    var m := Find(line);
    if m.Match? then
      EmptiedIsALine(line, m);
      Emptied(m)
    else line
  }

  lemma EmptiedIsALine(line: Line, m: Match)
    requires m.Match? && Matches(line, m)
    ensures '\n' !in Emptied(m)
  {
    assert forall c :: c in Emptied(m) ==> c in line;
  }

  function Flatten(parts: seq<seq<string>>): seq<string> {
    if parts == [] then [] else parts[0] + Flatten(parts[1..])
  }

  /** What `sed -n` prints for each line. */
  function Printed(text: Text): (r: seq<seq<string>>)
    ensures |r| == |text|
    ensures forall i | 0 <= i < |text| :: r[i] == Extract(text[i])
  {
    if text == [] then [] else [Extract(text[0])] + Printed(text[1..])
  }

  function Scrub(text: Text): (r: Text)
    ensures |r| == |text|
    ensures forall i | 0 <= i < |text| :: r[i] == ScrubLine(text[i])
  {
    if text == [] then [] else [ScrubLine(text[0])] + Scrub(text[1..])
  }

  function JoinLines(lines: seq<string>): string {
    if lines == [] then "" else lines[0] + "\n" + JoinLines(lines[1..])
  }

  function TrimNewlines(s: string): string {
    if s != [] && s[|s| - 1] == '\n' then TrimNewlines(s[..|s| - 1]) else s
  }

  /** `root="$(recorded_root)"`: the printed values, less the trailing newlines the
      shell removes. */
  function RecordedRoot(text: Text): string {
    TrimNewlines(JoinLines(Flatten(Printed(text))))
  }

  // ------------------------------------------------------------ the matcher is right

  lemma {:induction false} SpacesOf(indent: string, s: string)
    requires Blank(indent) && s != [] && s[0] != ' '
    ensures Spaces(indent + s) == |indent|
    decreases |indent|
  {
    if indent == [] {
      assert indent + s == s;
    } else {
      assert (indent + s)[1..] == indent[1..] + s;
      SpacesOf(indent[1..], s);
    }
  }

  lemma {:induction false} QuoteOf(value: string, s: string)
    requires '"' !in value && s != [] && s[0] == '"'
    ensures Quote(value + s) == |value|
    decreases |value|
  {
    if value == [] {
      assert value + s == s;
    } else {
      assert (value + s)[1..] == value[1..] + s;
      QuoteOf(value[1..], s);
    }
  }

  /** The matcher finds every match of the expression, so a line has at most one. */
  lemma {:induction false} FindComplete(line: string, m: Match)
    requires m.Match? && Matches(line, m)
    ensures Find(line) == m
  {
    var u := m.value + (['"'] + m.rest);
    var t := m.gap + (['"'] + u);
    var s := KEY + t;
    SpacesOf(m.indent, s);
    SpacesOf(m.gap, ['"'] + u);
    QuoteOf(m.value, ['"'] + m.rest);
    Cut(m.indent, s);
    Cut(KEY, t);
    Cut(m.gap, ['"'] + u);
    Cut(m.value, ['"'] + m.rest);
    assert (['"'] + u)[1..] == u && (['"'] + m.rest)[1..] == m.rest;
    assert t[|m.gap| + 1..] == (['"'] + u)[1..];
    assert u[|m.value| + 1..] == (['"'] + m.rest)[1..];
    assert FindEnd(m.indent, m.gap, u) == m;
    assert FindValue(m.indent, t) == m;
  }

  lemma Cut(a: string, b: string)
    ensures (a + b)[..|a|] == a && (a + b)[|a|..] == b && a <= a + b
  {
  }

  // ------------------------------------------------- the scrub's own regular expression

  /** A match of `^\( *"root_token": *"\)[^"]*"` at the start of a line: the group that is
      kept, the value that goes, and the quote behind it. */
  datatype ScrubMatch = ScrubMatch(indent: string, gap: string, value: string)
  {
    function Group(): string {
      indent + (KEY + (gap + ['"']))
    }

    function Text(): string {
      Group() + (value + ['"'])
    }

    predicate In(line: string) {
      Blank(indent) && Blank(gap) && '"' !in value && Text() <= line
    }
  }

  /** `s/.../\1"/`: the group and the quote, and the line behind the match. */
  function Substituted(line: string, m: ScrubMatch): string
    requires m.In(line)
  {
    m.Group() + (['"'] + line[|m.Text()|..])
  }

  /** What one expression matches, the other does, with the same parts. */
  lemma SameMatch(line: string, m: ScrubMatch, rest: string)
    ensures m.In(line) && line[|m.Text()|..] == rest <==> Matches(line, Match(m.indent, m.gap, m.value, rest))
  {
    Regroup(m, rest);
    if m.In(line) && line[|m.Text()|..] == rest {
      assert line == m.Text() + rest;
    }
    if Matches(line, Match(m.indent, m.gap, m.value, rest)) {
      assert line == m.Text() + rest;
      Cut(m.Text(), rest);
    }
  }

  lemma Regroup(m: ScrubMatch, rest: string)
    ensures m.Text() + rest == m.indent + (KEY + (m.gap + (['"'] + (m.value + (['"'] + rest)))))
    ensures m.Group() + (['"'] + rest) == m.indent + (KEY + (m.gap + (['"'] + (['"'] + rest))))
  {
    Assoc(m.indent, KEY + (m.gap + ['"']), m.value + ['"']);
    Assoc(m.value, ['"'], rest);
    assert m.Text() + rest == m.Group() + ((m.value + ['"']) + rest) by { Assoc(m.Group(), m.value + ['"'], rest); }
    Ungroup(m, m.value + (['"'] + rest));
    Ungroup(m, ['"'] + rest);
  }

  lemma Ungroup(m: ScrubMatch, s: string)
    ensures m.Group() + s == m.indent + (KEY + (m.gap + (['"'] + s)))
  {
    Assoc(m.indent, KEY + (m.gap + ['"']), s);
    Assoc(KEY, m.gap + ['"'], s);
    Assoc(m.gap, ['"'], s);
  }

  lemma Assoc(a: string, b: string, c: string)
    ensures (a + b) + c == a + (b + c)
  {
  }

  /** The line scrubbed is what the scrub expression substitutes at any of its matches,
      and the line itself if it has none. */
  lemma ScrubIsTheSubstitution(line: Line)
    ensures forall m: ScrubMatch :: m.In(line) ==> ScrubLine(line) == Substituted(line, m)
    ensures (forall m: ScrubMatch :: !m.In(line)) ==> ScrubLine(line) == line
  {
    forall m: ScrubMatch | m.In(line) ensures ScrubLine(line) == Substituted(line, m) {
      var rest := line[|m.Text()|..];
      SameMatch(line, m, rest);
      FindComplete(line, Match(m.indent, m.gap, m.value, rest));
      Regroup(m, rest);
      assert "" + (['"'] + rest) == ['"'] + rest;
    }
    var f := Find(line);
    if f.Match? {
      SameMatch(line, ScrubMatch(f.indent, f.gap, f.value), f.rest);
      assert ScrubMatch(f.indent, f.gap, f.value).In(line);
    }
  }

  /** The two expressions match exactly the same lines, and the value the scrub drops is
      the one the extraction prints. */
  lemma SameLinesMatch(line: Line)
    ensures (exists m: Match :: m.Match? && Matches(line, m)) <==> (exists m: ScrubMatch :: m.In(line))
    ensures forall m: ScrubMatch :: m.In(line) ==> Extract(line) == [m.value]
    ensures (forall m: ScrubMatch :: !m.In(line)) ==> Extract(line) == []
  {
    forall m: ScrubMatch | m.In(line) ensures Extract(line) == [m.value] && Find(line).Match? && Matches(line, Find(line)) {
      SameMatch(line, m, line[|m.Text()|..]);
      FindComplete(line, Match(m.indent, m.gap, m.value, line[|m.Text()|..]));
    }
    forall m: Match | m.Match? && Matches(line, m) ensures ScrubMatch(m.indent, m.gap, m.value).In(line) {
      SameMatch(line, ScrubMatch(m.indent, m.gap, m.value), m.rest);
    }
    var f := Find(line);
    if f.Match? { assert Matches(line, f); }
  }

  // ------------------------------------------------------------- scrub against extract

  /** A scrubbed line still matches, with an empty value and the same surroundings;
      a line that did not match is untouched and still does not. */
  lemma {:induction false} ScrubKeepsMatch(line: Line)
    ensures Find(ScrubLine(line)) == match Find(line)
                                     case NoMatch => NoMatch
                                     case Match(indent, gap, _, rest) => Match(indent, gap, "", rest)
  {
    var m := Find(line);
    if m.Match? {
      FindComplete(Emptied(m), m.(value := ""));
    }
  }

  /** Scrub and extraction agree on which lines hold the root token: a scrubbed line
      yields an empty value where it yielded one, and it changed only if it had to. */
  lemma {:induction false} ScrubLineLaw(line: Line)
    ensures Extract(ScrubLine(line)) == (if Extract(line) == [] then [] else [""])
    ensures ScrubLine(line) == line <==> Extract(line) == [] || Extract(line) == [""]
    ensures ScrubLine(ScrubLine(line)) == ScrubLine(line)
  {
    ScrubKeepsMatch(line);
    var m := Find(line);
    if m.Match? && m.value != "" {
      assert |line| == |Emptied(m)| + |m.value|;
    }
  }

  /** On a whole text: the same number of lines, the same lines matched, every other
      line unchanged, and nothing left for a second scrub to do. */
  lemma {:induction false} ScrubAgainstExtract(text: Text)
    ensures |Scrub(text)| == |text|
    ensures forall i | 0 <= i < |text| :: Extract(Scrub(text)[i]) == if Extract(text[i]) == [] then [] else [""]
    ensures forall i | 0 <= i < |text| :: Scrub(text)[i] != text[i] ==> |Extract(text[i])| == 1 && Extract(text[i])[0] != ""
    ensures Scrub(Scrub(text)) == Scrub(text)
  {
    forall i | 0 <= i < |text|
      ensures Extract(Scrub(text)[i]) == if Extract(text[i]) == [] then [] else [""]
      ensures Scrub(text)[i] != text[i] ==> |Extract(text[i])| == 1 && Extract(text[i])[0] != ""
      ensures Scrub(Scrub(text))[i] == Scrub(text)[i]
    {
      ScrubLineLaw(text[i]);
    }
  }

  // ---------------------------------------------------------------- the recorded root

  predicate AllEmpty(values: seq<string>) {
    forall i | 0 <= i < |values| :: values[i] == ""
  }

  lemma {:induction false} TrimToEmpty(s: string)
    ensures TrimNewlines(s) == "" <==> OnlyNewlines(s)
    decreases |s|
  {
    if s != [] && s[|s| - 1] == '\n' { TrimToEmpty(s[..|s| - 1]); }
  }

  lemma {:induction false} JoinOfEmpties(values: seq<string>)
    requires forall i | 0 <= i < |values| :: '\n' !in values[i]
    ensures AllEmpty(values) <==> OnlyNewlines(JoinLines(values))
    decreases |values|
  {
    if values != [] {
      JoinOfEmpties(values[1..]);
      var head, tail := values[0] + "\n", JoinLines(values[1..]);
      NewlinesOfConcat(head, tail);
      assert OnlyNewlines(head) <==> values[0] == "" by {
        if values[0] != "" { assert head[0] == values[0][0]; }
      }
      assert values == [values[0]] + values[1..];
    }
  }

  predicate OnlyNewlines(s: string) {
    forall i | 0 <= i < |s| :: s[i] == '\n'
  }

  lemma NewlinesOfConcat(a: string, b: string)
    ensures OnlyNewlines(a + b) <==> OnlyNewlines(a) && OnlyNewlines(b)
  {
    assert forall i | 0 <= i < |a| :: (a + b)[i] == a[i];
    assert forall i | 0 <= i < |b| :: (a + b)[|a| + i] == b[i];
  }

  lemma EmptiesOfConcat(a: seq<string>, b: seq<string>)
    ensures AllEmpty(a + b) <==> AllEmpty(a) && AllEmpty(b)
  {
    assert forall i | 0 <= i < |a| :: (a + b)[i] == a[i];
    assert forall i | 0 <= i < |b| :: (a + b)[|a| + i] == b[i];
  }

  lemma NoNewlinesOfConcat(a: seq<string>, b: seq<string>)
    requires forall i | 0 <= i < |a| :: '\n' !in a[i]
    requires forall i | 0 <= i < |b| :: '\n' !in b[i]
    ensures forall i | 0 <= i < |a + b| :: '\n' !in (a + b)[i]
  {
  }

  /** No line of the text carries a root token. */
  predicate Rootless(text: Text) {
    forall i | 0 <= i < |text| :: AllEmpty(Extract(text[i]))
  }

  lemma {:induction false} EmptiesOfParts(parts: seq<seq<string>>)
    requires forall i, k | 0 <= i < |parts| && 0 <= k < |parts[i]| :: '\n' !in parts[i][k]
    ensures forall i | 0 <= i < |Flatten(parts)| :: '\n' !in Flatten(parts)[i]
    ensures AllEmpty(Flatten(parts)) <==> forall i | 0 <= i < |parts| :: AllEmpty(parts[i])
    decreases |parts|
  {
    if parts != [] {
      EmptiesOfParts(parts[1..]);
      EmptiesOfConcat(parts[0], Flatten(parts[1..]));
      NoNewlinesOfConcat(parts[0], Flatten(parts[1..]));
      assert parts == [parts[0]] + parts[1..];
    }
  }

  /** The script sees no recorded root exactly when no line carries a value. */
  lemma NoRootExactlyWhenRootless(text: Text)
    ensures RecordedRoot(text) == "" <==> Rootless(text)
  {
    var values := Flatten(Printed(text));
    EmptiesOfParts(Printed(text));
    JoinOfEmpties(values);
    TrimToEmpty(JoinLines(values));
  }

  /** After the scrub the script reads an empty root. */
  lemma {:induction false} ScrubbedHasNoRoot(text: Text)
    ensures RecordedRoot(Scrub(text)) == ""
  {
    ScrubAgainstExtract(text);
    NoRootExactlyWhenRootless(Scrub(text));
  }

  /** A response whose one matching line carries the token is read back as that token. */
  lemma RootReadBack(text: Text, token: string, i: nat)
    requires token != "" && '\n' !in token
    requires i < |text| && Extract(text[i]) == [token]
    requires forall j | 0 <= j < |text| && j != i :: Extract(text[j]) == []
    ensures RecordedRoot(text) == token
  {
    OneCapture(Printed(text), token, i);
    TrimOneLine(token);
    assert JoinLines([token]) == token + "\n" + JoinLines([]);
    assert token + "\n" + [] == token + "\n";
  }

  lemma TrimOneLine(token: string)
    requires token != "" && '\n' !in token
    ensures TrimNewlines(token + "\n") == token
  {
    assert (token + "\n")[..|token|] == token;
    assert token[|token| - 1] in token;
  }

  lemma {:induction false} OneCapture(parts: seq<seq<string>>, token: string, i: nat)
    requires i < |parts| && parts[i] == [token]
    requires forall j | 0 <= j < |parts| && j != i :: parts[j] == []
    ensures Flatten(parts) == [token]
    decreases |parts|
  {
    if i == 0 {
      NoCaptures(parts[1..]);
    } else {
      OneCapture(parts[1..], token, i - 1);
    }
  }

  lemma {:induction false} NoCaptures(parts: seq<seq<string>>)
    requires forall j | 0 <= j < |parts| :: parts[j] == []
    ensures Flatten(parts) == []
    decreases |parts|
  {
    if parts != [] { NoCaptures(parts[1..]); }
  }

  // ---------------------------------------------------------------- in so many words

  /** A line of vault's response with the root token, up to the token. */
  const BEFORE: string := "  \"root_token\": \""

  lemma BeforeIsGroup(value: string)
    ensures ScrubMatch("  ", " ", value).Group() == BEFORE
  {
    assert ['"'] == "\"";
    assert " " + "\"" == " \"";
    assert "\"root_token\":" + " \"" == "\"root_token\": \"";
  }

  /** The line with the token gives the token, and the scrub takes the token out and
      leaves the quotes and the rest. */
  lemma {:induction false} OneLine(line: Line, value: string, rest: string)
    requires '"' !in value && line == BEFORE + (value + (['"'] + rest))
    ensures Extract(line) == [value]
    ensures ScrubLine(line) == BEFORE + (['"'] + rest)
  {
    hide Find, ScrubLine, Extract;
    var m := ScrubMatch("  ", " ", value);
    BeforeIsGroup(value);
    Assoc(BEFORE, value + ['"'], rest);
    Assoc(value, ['"'], rest);
    assert line == m.Text() + rest;
    Cut(m.Text(), rest);
    assert m.In(line);
    SameLinesMatch(line);
    ScrubIsTheSubstitution(line);
    assert Substituted(line, m) == BEFORE + (['"'] + rest);
  }

  /** A response whose one such line is the i-th: the root read back is the token, and
      after the scrub there is none. */
  lemma {:induction false} OneResponse(text: Text, i: nat, token: string, rest: string)
    requires token != "" && '"' !in token && '\n' !in token
    requires i < |text| && text[i] == BEFORE + (token + (['"'] + rest))
    requires forall j | 0 <= j < |text| && j != i :: Extract(text[j]) == []
    ensures RecordedRoot(text) == token && RecordedRoot(Scrub(text)) == ""
    ensures Scrub(text)[i] == BEFORE + (['"'] + rest)
    ensures forall j | 0 <= j < |text| && j != i :: Scrub(text)[j] == text[j]
  {
    hide Find, ScrubLine, Extract, RecordedRoot;
    OneLine(text[i], token, rest);
    RootReadBack(text, token, i);
    ScrubbedHasNoRoot(text);
    forall j | 0 <= j < |text| && j != i ensures ScrubLine(text[j]) == text[j] {
      ScrubLineLaw(text[j]);
    }
  }

  lemma Joined(a: string, b: string)
    ensures JoinLines([a, b]) == a + "\n" + b + "\n"
  {
    assert [a, b][1..] == [b] && [b][1..] == [];
    assert JoinLines([]) == "";
    assert JoinLines([b]) == b + "\n" + "" == b + "\n";
    assert a + "\n" + (b + "\n") == a + "\n" + b + "\n";
  }

  /** Two lines with a token are read back as two lines; only trailing newlines go. */
  lemma {:induction false} TwoTokens(first: Line, second: Line, a: string, b: string)
    requires Extract(first) == [a] && Extract(second) == [b] && b != ""
    ensures RecordedRoot([first, second]) == a + "\n" + b
  {
    hide Find, Extract;
    var text: Text := [first, second];
    assert text[1..] == [second] && text[1..][1..] == [];
    assert Printed(text) == [[a], [b]];
    assert Flatten(Printed(text)) == [a, b] by {
      assert Flatten([[a], [b]]) == [a] + Flatten([[a], [b]][1..]);
      assert [[a], [b]][1..] == [[b]];
      assert Flatten([[b]]) == [b] + Flatten([]);
    }
    var s := a + "\n" + b;
    Joined(a, b);
    assert Extract(second)[0] == b;
    assert b[|b| - 1] in b;
    assert s[|s| - 1] == b[|b| - 1];
    TrimLast(s);
    assert RecordedRoot(text) == TrimNewlines(JoinLines([a, b]));
  }

  lemma TrimLast(s: string)
    requires s != "" && s[|s| - 1] != '\n'
    ensures TrimNewlines(s + "\n") == s
  {
    assert (s + "\n")[..|s|] == s;
    assert TrimNewlines(s) == s;
  }
}

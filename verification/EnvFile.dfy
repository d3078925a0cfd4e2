/** KEY=VALUE files loaded into the process environment (internal/envfile).

    A line is blank, a comment, or a key and a value around the first "="; anything else ends
    the load with an error, and what came before it stays set. A value in a pair of equal quotes
    is taken as it is, any other loses a trailing comment, which is a "#" behind a blank. A
    quoted value followed by a comment does not end in its quote, so it counts as unquoted.

    The main results are about whole files: what is written in quotes loads back, with the last
    of a key winning; which unquoted values load back; and a file loaded over an environment
    overrides exactly what it sets on its own. */
module EnvFile {
  import opened Options
  import opened Strings

  type Env = map<string, string>

  datatype Error = CannotOpen | NoEquals(line: nat) | CannotSet(line: nat)

  // ---- One value --------------------------------------------------------------------

  /** A "#" behind a blank starts a comment. */
  predicate CommentAt(s: string, i: int) {
    1 <= i < |s| && s[i] == '#' && (s[i - 1] == ' ' || s[i - 1] == '\t')
  }

  ghost predicate HasComment(s: string) { exists i :: CommentAt(s, i) }

  function FirstComment(s: string, from: nat): (r: int)
    requires 1 <= from
    ensures r == -1 ==> forall i :: i >= from ==> !CommentAt(s, i)
    ensures r != -1 ==> r >= from && CommentAt(s, r) && forall i :: from <= i < r ==> !CommentAt(s, i)
    decreases |s| - from
  {
    if from >= |s| then -1 else if CommentAt(s, from) then from else FirstComment(s, from + 1)
  }

  method IndexInlineComment(s: string) returns (r: int)
    ensures r == FirstComment(s, 1)
    ensures r == -1 <==> !HasComment(s)
  {
    var i := 1;
    while i < |s|
      invariant 1 <= i && FirstComment(s, 1) == FirstComment(s, i)
    {
      if s[i] == '#' && (s[i - 1] == ' ' || s[i - 1] == '\t') {
        return i;
      }
      i := i + 1;
    }
    r := -1;
  }

  predicate Wrapped(s: string) {
    |s| >= 2 && (s[0] == '\'' || s[0] == '"') && s[0] == s[|s| - 1]
  }

  /** The value a line gives for the text behind its "=". */
  function ParseValue(raw: string): string {
    var value := TrimSpace(raw);
    if Wrapped(value) then value[1..|value| - 1]
    else if |value| >= 2 && FirstComment(value, 1) >= 0 then TrimSpace(value[..FirstComment(value, 1)])
    else value
  }

  lemma ParseValueIsShorter(raw: string)
    ensures |ParseValue(raw)| <= |TrimSpace(raw)| <= |raw|
  {
    TrimSpaceShortens(raw);
    var value := TrimSpace(raw);
    if FirstComment(value, 1) >= 0 {
      TrimSpaceShortens(value[..FirstComment(value, 1)]);
    }
  }

  lemma {:induction false} TrimSpaceShortens(s: string)
    ensures |TrimSpace(s)| <= |s|
    ensures s != [] && IsSpace(s[0]) ==> |TrimSpace(s)| < |s|
  {
    TrimRightKeepsStart(TrimLeft(s));
    if s != [] && IsSpace(s[0]) {
      TrimSpaceShortens(s[1..]);
    }
  }

  /** Between a pair of either quote any text loads as it is, whatever quotes, "#" or blanks it
      holds. */
  lemma QuotedValue(value: string, quote: char)
    requires quote == '\'' || quote == '"'
    ensures ParseValue([quote] + value + [quote]) == value
  {
    var raw := [quote] + value + [quote];
    TrimSpaceTrims(raw);
  }

  /** An unquoted text loads unchanged if and only if it has no blanks around it, is not itself
      wrapped in quotes, and holds no blank followed by "#". */
  lemma UnquotedValue(value: string)
    ensures ParseValue(value) == value <==> Trimmed(value) && !Wrapped(value) && !HasComment(value)
  {
    TrimSpaceTrims(value);
    TrimSpaceShortens(value);
    ParseValueIsShorter(value);
    var trimmed := TrimSpace(value);
    var i := FirstComment(value, 1);
    if Trimmed(value) {
      if i >= 0 {
        TrimSpaceShortens(value[..i]);
      }
    } else if ParseValue(value) == value {
      TrimmedIsShorter(value);
    }
  }

  lemma TrimmedIsShorter(s: string)
    requires !Trimmed(s)
    ensures |TrimSpace(s)| < |s|
  {
    TrimSpaceShortens(s);
    if !IsSpace(s[0]) {
      TrimRightKeepsStart(s[..|s| - 1]);
    }
  }

  /** A trailing comment, which is a "#" behind a space or a tab, is removed from a value without a
      comment of its own if and only if there is a value before it, and value and comment
      together do not begin and end with the same quote. A quoted value keeps its own quotes
      then. */
  lemma CommentedValue(value: string, blank: char, comment: string)
    requires Trimmed(value) && !HasComment(value) && Trimmed("#" + comment) && (blank == ' ' || blank == '\t')
    ensures ParseValue(value + [blank] + ("#" + comment)) == value <==>
            value != "" && !Wrapped(value + [blank] + ("#" + comment))
  {
    var text := "#" + comment;
    var raw := value + [blank] + text;
    var n := |value|;
    assert raw[n + 1..] == text && raw[n] == blank;
    assert raw[|raw| - 1] == text[|comment|];
    if value == "" {
      CommentAlone(blank, comment);
    } else {
      TrimSpaceTrims(raw);
      if !Wrapped(raw) {
        CommentBehind(value, blank, comment);
        assert raw[..n + 1] == value + [blank];
        BlankBehind(value, blank);
      }
    }
  }

  lemma CommentBehind(value: string, blank: char, comment: string)
    requires value != "" && !HasComment(value) && (blank == ' ' || blank == '\t')
    ensures FirstComment(value + [blank] + ("#" + comment), 1) == |value| + 1
  {
    var raw := value + [blank] + ("#" + comment);
    forall i | 1 <= i <= |value| ensures !CommentAt(raw, i) {
      if i < |value| {
        assert !CommentAt(value, i);
      }
    }
    assert CommentAt(raw, |value| + 1);
  }

  /** Behind nothing the comment, up to a comment of its own, is the value. */
  lemma CommentAlone(blank: char, comment: string)
    requires Trimmed("#" + comment) && (blank == ' ' || blank == '\t')
    ensures ParseValue("" + [blank] + ("#" + comment)) != ""
  {
    var text := "#" + comment;
    var raw := "" + [blank] + text;
    assert raw[1..] == text && IsSpace(raw[0]);
    TrimSpaceTrims(text);
    assert TrimSpace(raw) == TrimSpace(text) == text;
    var i := FirstComment(text, 1);
    if i >= 0 {
      assert text[..i][0] == '#';
      TrimKeepsHash(text[..i]);
    }
  }

  lemma {:induction false} TrimKeepsHash(s: string)
    requires s != "" && s[0] == '#'
    ensures TrimSpace(s) != ""
  {
    assert TrimLeft(s) == s;
    RightKeepsHash(s);
  }

  lemma {:induction false} RightKeepsHash(s: string)
    requires s != "" && s[0] == '#'
    ensures TrimRight(s) != ""
  {
    if |s| > 1 && IsSpace(s[|s| - 1]) {
      RightKeepsHash(s[..|s| - 1]);
    }
  }

  lemma BlankBehind(value: string, blank: char)
    requires value != "" && Trimmed(value) && (blank == ' ' || blank == '\t')
    ensures TrimSpace(value + [blank]) == value
  {
    TrimSpaceTrims(value);
    assert (value + [blank])[..|value|] == value;
  }

  /** Two readings the description of the format does not give: behind "K=" a comment is the
      value, and a quoted value with a comment behind it keeps its quotes. */
  lemma SurprisingValues()
    ensures ParseValue(" # note") == "# note"
    ensures ParseValue("'a' # note") == "'a'"
  {
    var note := " # note";
    assert note[1..] == "# note";
    UnquotedValue("# note");
    TrimSpaceTrims("# note");
    assert TrimSpace(note) == TrimSpace("# note");
    assert FirstComment("# note", 1) == -1;
    assert ParseValue(note) == ParseValue("# note");
    assert FirstComment("'a'", 1) == -1;
    CommentedValue("'a'", ' ', " note");
    assert "'a'" + [' '] + ("#" + " note") == "'a' # note";
  }

  // ---- A file -----------------------------------------------------------------------

  datatype Line = Skip | Malformed | Pair(key: string, value: string)

  function ParseLine(text: string): Line {
    var trimmed := TrimSpace(text);
    if trimmed == "" || trimmed[0] == '#' then Skip
    else
      match Cut(trimmed, '=')
      case None => Malformed
      case Some((key, raw)) => Pair(TrimSpace(key), ParseValue(raw))
  }

  /** os.Setenv refuses an empty key, a key with '=', and a NUL in either. */
  predicate CanSet(key: string, value: string) {
    key != "" && '=' !in key && '\0' !in key && '\0' !in value
  }

  /** What the last line does to what the lines before it gave. */
  function AfterLine(before: (Env, Option<Error>), line: Line, number: nat): (Env, Option<Error>) {
    if before.1.Some? then before
    else
      match line
      case Skip => before
      case Malformed => (before.0, Some(NoEquals(number)))
      case Pair(key, value) =>
        if CanSet(key, value) then (before.0[key := value], None) else (before.0, Some(CannotSet(number)))
  }

  /** Up to the first bad line every pair is set, the last one for a key winning. */
  function LoadLines(env: Env, lines: seq<string>): (Env, Option<Error>) {
    if lines == [] then (env, None)
    else
      var n := |lines| - 1;
      AfterLine(LoadLines(env, lines[..n]), ParseLine(lines[n]), n + 1)
  }

  lemma {:induction false} ErrorStays(env: Env, lines: seq<string>, i: nat)
    requires i <= |lines| && LoadLines(env, lines[..i]).1.Some?
    ensures LoadLines(env, lines) == LoadLines(env, lines[..i])
  {
    if i == |lines| {
      assert lines[..i] == lines;
    } else {
      var n := |lines| - 1;
      assert lines[..n][..i] == lines[..i];
      ErrorStays(env, lines[..n], i);
    }
  }

  class Environment {
    var vars: Env

    constructor ()
      ensures vars == map[]
    {
      vars := map[];
    }

    method Setenv(key: string, value: string) returns (ok: bool)
      modifies this
      ensures ok == CanSet(key, value)
      ensures ok <==> key != "" && '=' !in key && '\0' !in key && '\0' !in value
      ensures vars == if ok then old(vars)[key := value] else old(vars)
    {
      ok := key != "" && '=' !in key && '\0' !in key && '\0' !in value;
      if ok {
        vars := vars[key := value];
      }
    }

    /** Load. A file that cannot be opened is None. */
    method Load(file: Option<string>) returns (error: Option<Error>)
      modifies this
      ensures file.None? ==> error == Some(CannotOpen) && vars == old(vars)
      ensures file.Some? ==> (vars, error) == LoadLines(old(vars), Lines(file.value))
    {
      if file.None? {
        return Some(CannotOpen);
      }
      var lines := Lines(file.value);
      var i := 0;
      while i < |lines|
        invariant 0 <= i <= |lines| && (vars, None) == LoadLines(old(vars), lines[..i])
      {
        assert lines[..i + 1][..i] == lines[..i];
        var failed := LoadLine(lines[i], i + 1);
        if failed.Some? {
          ErrorStays(old(vars), lines, i + 1);
          return failed;
        }
        i := i + 1;
      }
      assert lines[..i] == lines;
      return None;
    }

    /** The body of the loop. */
    method LoadLine(text: string, number: nat) returns (error: Option<Error>)
      modifies this
      ensures match ParseLine(text)
              case Skip => error == None && vars == old(vars)
              case Malformed => error == Some(NoEquals(number)) && vars == old(vars)
              case Pair(key, value) =>
                && error == (if CanSet(key, value) then None else Some(CannotSet(number)))
                && vars == if CanSet(key, value) then old(vars)[key := value] else old(vars)
    {
      var trimmed := TrimSpace(text);
      if trimmed == "" || trimmed[0] == '#' {
        return None;
      }
      var parts := Cut(trimmed, '=');
      if parts.None? {
        return Some(NoEquals(number));
      }
      var key := TrimSpace(parts.value.0);
      var value := TrimSpace(parts.value.1);
      if |value| >= 2 {
        var i := IndexInlineComment(value);
        if (value[0] == '\'' || value[0] == '"') && value[0] == value[|value| - 1] {
          value := value[1..|value| - 1];
        } else if i >= 0 {
          value := TrimSpace(value[..i]);
        }
      }
      var ok := Setenv(key, value);
      return if ok then None else Some(CannotSet(number));
    }
  }

  // ---- Writing a file and loading it ------------------------------------------------

  datatype Setting = Setting(key: string, raw: string)

  /** A key that is one word of a line, and a text behind the "=" without blanks around it. */
  predicate Writable(s: Setting) {
    && s.key != "" && Trimmed(s.key) && s.key[0] != '#' && '=' !in s.key && '\n' !in s.key && '\0' !in s.key
    && Trimmed(s.raw) && '\n' !in s.raw && '\0' !in ParseValue(s.raw)
  }

  function TextOf(settings: seq<Setting>): string {
    if settings == [] then ""
    else settings[0].key + "=" + settings[0].raw + "\n" + TextOf(settings[1..])
  }

  /** Later settings of a key win over earlier ones. */
  function Merge(env: Env, settings: seq<Setting>): Env
    decreases |settings|
  {
    if settings == [] then env else Merge(env[settings[0].key := ParseValue(settings[0].raw)], settings[1..])
  }

  lemma WrittenLine(s: Setting)
    requires Writable(s)
    ensures var line := s.key + "=" + s.raw;
            ParseLine(line) == Pair(s.key, ParseValue(s.raw)) && CanSet(s.key, ParseValue(s.raw))
            && '\n' !in line && DropReturn(line) == line
  {
    var line := s.key + "=" + s.raw;
    assert line[0] == s.key[0];
    assert line[|line| - 1] == if s.raw == "" then '=' else s.raw[|s.raw| - 1];
    TrimSpaceTrims(line);
    TrimSpaceTrims(s.key);
    CutAt(s.key, '=', s.raw);
    assert line == s.key + ['='] + s.raw;
  }

  lemma {:induction false} LoadFront(env: Env, line: string, rest: seq<string>, key: string, value: string)
    requires ParseLine(line) == Pair(key, value) && CanSet(key, value)
    requires LoadLines(env[key := value], rest).1.None?
    ensures LoadLines(env, [line] + rest) == LoadLines(env[key := value], rest)
  {
    var all := [line] + rest;
    if rest == [] {
      assert all[..0] == [];
    } else {
      var n := |rest| - 1;
      assert all[..n + 1] == [line] + rest[..n] && all[n + 1] == rest[n];
      assert LoadLines(env[key := value], rest[..n]).1.None?;
      LoadFront(env, line, rest[..n], key, value);
    }
  }

  /** What a line is read as: nothing when it is blank or its first character that is not white
      space is "#", and an error when it is neither and has no "=". */
  lemma LineKinds(pre: string, text: string, post: string)
    requires Blank(pre) && Trimmed(text) && Blank(post)
    ensures ParseLine(pre + text + post).Skip? <==> text == "" || text[0] == '#'
    ensures ParseLine(pre + text + post).Malformed? <==> text != "" && text[0] != '#' && '=' !in text
  {
    TrimSpaceAround(pre, text, post);
  }

  lemma LoadSnoc(env: Env, lines: seq<string>, line: string)
    ensures LoadLines(env, lines + [line]) == AfterLine(LoadLines(env, lines), ParseLine(line), |lines| + 1)
  {
    assert (lines + [line])[..|lines|] == lines;
  }

  /** The same settings, and an error in both or in neither. */
  predicate Alike(a: (Env, Option<Error>), b: (Env, Option<Error>)) { a.0 == b.0 && (a.1.None? <==> b.1.None?) }

  /** Any other line is a pair around its first "=", the key without the white space behind it. */
  lemma PairAt(key: string, gap: string, raw: string)
    requires key != "" && Trimmed(key) && key[0] != '#' && '=' !in key && Blank(gap)
    requires Trimmed(key + gap + ['='] + raw)
    ensures ParseLine(key + gap + ['='] + raw) == Pair(key, ParseValue(raw))
  {
    var text := key + gap + ['='] + raw;
    TrimSpaceTrims(text);
    assert text[0] == key[0];
    CutAt(key + gap, '=', raw);
    TrimSpaceAround("", key, gap);
    assert "" + key + gap == key + gap;
  }

  /** A line that is skipped changes nothing: the other lines set what they set without it. Only
      the numbers of the lines behind it change. */
  lemma {:induction false} SkippedLine(env: Env, before: seq<string>, line: string, after: seq<string>)
    requires ParseLine(line).Skip?
    ensures Alike(LoadLines(env, before + [line] + after), LoadLines(env, before + after))
  {
    if after == [] {
      assert before + [line] + after == before + [line] && before + after == before;
      LoadSnoc(env, before, line);
    } else {
      var init, last := after[..|after| - 1], after[|after| - 1];
      SkippedLine(env, before, line, init);
      assert before + [line] + after == (before + [line] + init) + [last] && before + after == (before + init) + [last];
      StayAlike(env, before + [line] + init, before + init, last);
    }
  }

  lemma StayAlike(env: Env, a: seq<string>, b: seq<string>, line: string)
    requires Alike(LoadLines(env, a), LoadLines(env, b))
    ensures Alike(LoadLines(env, a + [line]), LoadLines(env, b + [line]))
  {
    LoadSnoc(env, a, line);
    LoadSnoc(env, b, line);
  }

  /** A text without its last line feed has the same lines, unless its last line is empty. */
  lemma {:induction false} LastLineFeed(s: string)
    requires s != "" && s[|s| - 1] != '\n'
    ensures Lines(s + ['\n']) == Lines(s)
    decreases |s|
  {
    match Cut(s, '\n')
    case None =>
      LinesAt(s, "");
      assert s + "\n" + "" == s + ['\n'] && Lines("") == [];
    case Some((line, rest)) =>
      assert s == line + ['\n'] + rest;
      assert rest != "" && rest[|rest| - 1] == s[|s| - 1];
      LastLineFeed(rest);
      TwoLines(line, rest);
  }

  lemma TwoLines(line: string, rest: string)
    requires '\n' !in line && Lines(rest + ['\n']) == Lines(rest)
    ensures Lines(line + ['\n'] + rest + ['\n']) == Lines(line + ['\n'] + rest)
  {
    LinesAt(line, rest);
    LinesAt(line, rest + ['\n']);
    assert line + "\n" + (rest + ['\n']) == line + ['\n'] + rest + ['\n'];
    assert line + "\n" + rest == line + ['\n'] + rest;
  }

  /** Loading what was written gives the last-wins merge of the settings, without error. */
  lemma {:induction false} LoadWritten(env: Env, settings: seq<Setting>)
    requires forall s :: s in settings ==> Writable(s)
    ensures LoadLines(env, Lines(TextOf(settings))) == (Merge(env, settings), None)
    decreases |settings|
  {
    if settings != [] {
      var s, rest := settings[0], settings[1..];
      var line := s.key + "=" + s.raw;
      WrittenLine(s);
      CutAt(line, '\n', TextOf(rest));
      assert TextOf(settings) == line + ['\n'] + TextOf(rest);
      assert Lines(TextOf(settings)) == [line] + Lines(TextOf(rest));
      LoadWritten(env[s.key := ParseValue(s.raw)], rest);
      LoadFront(env, line, Lines(TextOf(rest)), s.key, ParseValue(s.raw));
    }
  }

  function Unterminated(text: string): string { if text == "" then "" else text[..|text| - 1] }

  /** So it does when the last line feed is missing. */
  lemma LoadUnterminated(env: Env, settings: seq<Setting>)
    requires settings != [] && forall s :: s in settings ==> Writable(s)
    ensures LoadLines(env, Lines(Unterminated(TextOf(settings)))) == (Merge(env, settings), None)
  {
    SameLines(settings);
    LoadWritten(env, settings);
  }

  lemma SameLines(settings: seq<Setting>)
    requires settings != [] && forall s :: s in settings ==> Writable(s)
    ensures Lines(Unterminated(TextOf(settings))) == Lines(TextOf(settings))
  {
    LastTwo(settings);
    WithoutLast(TextOf(settings));
  }

  lemma WithoutLast(text: string)
    requires |text| >= 2 && text[|text| - 1] == '\n' && text[|text| - 2] != '\n'
    ensures Lines(Unterminated(text)) == Lines(text)
  {
    EndsOnce(text);
    LastLineFeed(Unterminated(text));
  }

  lemma EndsOnce(text: string)
    requires |text| >= 2 && text[|text| - 1] == '\n' && text[|text| - 2] != '\n'
    ensures var s := Unterminated(text); text == s + ['\n'] && s != "" && s[|s| - 1] != '\n'
  {
  }

  lemma {:induction false} LastTwo(settings: seq<Setting>)
    requires settings != [] && forall s :: s in settings ==> Writable(s)
    ensures var t := TextOf(settings); |t| >= 2 && t[|t| - 1] == '\n' && t[|t| - 2] != '\n'
    decreases |settings|
  {
    var s, rest := settings[0], TextOf(settings[1..]);
    var line := s.key + "=" + s.raw;
    var text := line + "\n" + rest;
    assert text == TextOf(settings);
    if |settings| == 1 {
      assert rest == "" && text[|text| - 2] == line[|line| - 1];
      WrittenLine(s);
    } else {
      LastTwo(settings[1..]);
      assert text[|text| - 1] == rest[|rest| - 1] && text[|text| - 2] == rest[|rest| - 2];
    }
  }

  // ---- Round trips ------------------------------------------------------------------

  /** A key, a value and the quote to write it in. */
  datatype Quoted = Quoted(key: string, value: string, quote: char)

  predicate QuotedOk(q: Quoted) {
    && q.key != "" && Trimmed(q.key) && q.key[0] != '#' && '=' !in q.key && '\n' !in q.key && '\0' !in q.key
    && '\n' !in q.value && '\0' !in q.value && (q.quote == '\'' || q.quote == '"')
  }

  function InQuotes(qs: seq<Quoted>): seq<Setting> {
    seq(|qs|, i requires 0 <= i < |qs| => Setting(qs[i].key, [qs[i].quote] + qs[i].value + [qs[i].quote]))
  }

  /** The value of a key's last pair, if it has one. */
  function LastValue(qs: seq<Quoted>, key: string): Option<string> {
    if qs == [] then None
    else if qs[|qs| - 1].key == key then Some(qs[|qs| - 1].value)
    else LastValue(qs[..|qs| - 1], key)
  }

  lemma {:induction false} MergeSnoc(env: Env, settings: seq<Setting>, s: Setting)
    ensures Merge(env, settings + [s]) == Merge(env, settings)[s.key := ParseValue(s.raw)]
    decreases |settings|
  {
    if settings == [] {
      assert (settings + [s])[1..] == [];
    } else {
      assert (settings + [s])[1..] == settings[1..] + [s];
      MergeSnoc(env[settings[0].key := ParseValue(settings[0].raw)], settings[1..], s);
    }
  }

  function Lookup(env: Env, key: string): Option<string> {
    if key in env then Some(env[key]) else None
  }

  lemma QuotedSnoc(env: Env, qs: seq<Quoted>, q: Quoted)
    requires QuotedOk(q)
    ensures Merge(env, InQuotes(qs + [q])) == Merge(env, InQuotes(qs))[q.key := q.value]
  {
    var s := Setting(q.key, [q.quote] + q.value + [q.quote]);
    QuotedValue(q.value, q.quote);
    assert InQuotes(qs + [q]) == InQuotes(qs) + [s];
    MergeSnoc(env, InQuotes(qs), s);
  }

  lemma {:induction false} MergeIsLastWins(env: Env, qs: seq<Quoted>, key: string)
    requires forall q :: q in qs ==> QuotedOk(q)
    ensures Lookup(Merge(env, InQuotes(qs)), key) ==
            if LastValue(qs, key).Some? then LastValue(qs, key) else Lookup(env, key)
  {
    if qs != [] {
      var init, last := qs[..|qs| - 1], qs[|qs| - 1];
      assert qs == init + [last] && QuotedOk(last);
      MergeIsLastWins(env, init, key);
      QuotedSnoc(env, init, last);
    }
  }

  /** Round trip: pairs written with every value between quotes of either kind load without
      error, each key with the value of its last pair, every other key as it was. */
  lemma QuotedRoundTrip(env: Env, qs: seq<Quoted>, key: string)
    requires forall q :: q in qs ==> QuotedOk(q)
    ensures var loaded := LoadLines(env, Lines(TextOf(InQuotes(qs))));
            && loaded.1.None?
            && Lookup(loaded.0, key) == if LastValue(qs, key).Some? then LastValue(qs, key) else Lookup(env, key)
  {
    forall s | s in InQuotes(qs) ensures Writable(s) {
      var i :| 0 <= i < |qs| && InQuotes(qs)[i] == s;
      assert qs[i] in qs;
      QuotedValue(qs[i].value, qs[i].quote);
    }
    LoadWritten(env, InQuotes(qs));
    MergeIsLastWins(env, qs, key);
  }

  /** Loading any file is overriding what is there by what the file sets on its own, up to its
      first bad line; whether and where it fails does not depend on what is there. So the
      centre's file, loaded second, overrides the shared one key by key. */
  lemma {:induction false} LoadIsOverride(env: Env, lines: seq<string>)
    ensures LoadLines(env, lines) == (env + LoadLines(map[], lines).0, LoadLines(map[], lines).1)
  {
    if lines == [] {
      assert env + map[] == env;
    } else {
      var n := |lines| - 1;
      LoadIsOverride(env, lines[..n]);
      LineOverrides(env, LoadLines(map[], lines[..n]), ParseLine(lines[n]), n + 1);
    }
  }

  lemma LineOverrides(env: Env, alone: (Env, Option<Error>), line: Line, number: nat)
    ensures var after := AfterLine(alone, line, number);
            AfterLine((env + alone.0, alone.1), line, number) == (env + after.0, after.1)
  {
    if line.Pair? {
      assert (env + alone.0)[line.key := line.value] == env + alone.0[line.key := line.value];
    }
  }

  /** What a file sets. */
  function Sets(file: string): (Env, Option<Error>) { LoadLines(map[], Lines(file)) }

  /** The start of the program: the shared file, the centre's own, and the centre named on the
      command line. A bad file ends it. */
  method Start(env: Environment, common: Option<string>, centre: Option<string>, id: string) returns (ok: bool)
    requires '\0' !in id
    modifies env
    ensures ok <==> common.Some? && centre.Some? && Sets(common.value).1.None? && Sets(centre.value).1.None?
    ensures ok ==> env.vars == (old(env.vars) + Sets(common.value).0 + Sets(centre.value).0)["CENTRE_ID" := id]
  {
    if common.Some? {
      LoadIsOverride(env.vars, Lines(common.value));
    }
    var error := env.Load(common);
    if error.Some? {
      return false;
    }
    if centre.Some? {
      LoadIsOverride(env.vars, Lines(centre.value));
    }
    error := env.Load(centre);
    if error.Some? {
      return false;
    }
    ok := env.Setenv("CENTRE_ID", id);
  }
}

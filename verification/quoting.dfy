/** Quoting the executable path for a POSIX shell, and recognising what was quoted that way. */
module Quoting {
  import opened Base
  import opened Protocol

  const APOSTROPHE := '\''
  const ESCAPED_APOSTROPHE := "'\"'\"'"

  /** value.replace('\'', ESCAPED_APOSTROPHE). */
  function Escape(value: string): string {
    if value == "" then ""
    else (if value[0] == APOSTROPHE then ESCAPED_APOSTROPHE else [value[0]]) + Escape(value[1..])
  }

  function ShellQuote(value: string): string {
    "'" + Escape(value) + "'"
  }

  /** value.replace(ESCAPED_APOSTROPHE, "'"): leftmost matches, never overlapping. */
  function Unescape(value: string): string {
    if value == "" then ""
    else if ESCAPED_APOSTROPHE <= value then "'" + Unescape(value[|ESCAPED_APOSTROPHE|..])
    else [value[0]] + Unescape(value[1..])
  }

  /** The text between two apostrophes, if the value starts and ends with one. */
  function Unwrap(value: string): Option<string> {
    if |value| >= 2 && value[0] == APOSTROPHE && value[|value| - 1] == APOSTROPHE then Some(value[1..|value| - 1])
    else None
  }

  // ---- Paths ----

  predicate IsAbsolute(path: string) {
    path != "" && path[0] == '/'
  }

  function SplitPath(path: string): (parts: seq<string>)
    ensures parts != []
  {
    if path == "" then [""]
    else
      var rest := SplitPath(path[1..]);
      if path[0] == '/' then [""] + rest else [[path[0]] + rest[0]] + rest[1..]
  }

  /** The last component; empty and "." components do not count, and ".." is not a name. */
  function LastName(parts: seq<string>): Option<string> {
    if parts == [] then None
    else
      var last := parts[|parts| - 1];
      if last == "" || last == "." then LastName(parts[..|parts| - 1])
      else if last == ".." then None
      else Some(last)
  }

  function FileName(path: string): Option<string> {
    LastName(SplitPath(path))
  }

  function AsciiLower(c: char): char {
    if 'A' <= c <= 'Z' then (c as int + 32) as char else c
  }

  predicate EqIgnoreAsciiCase(a: string, b: string) {
    |a| == |b| && forall i :: 0 <= i < |a| ==> AsciiLower(a[i]) == AsciiLower(b[i])
  }

  predicate IsAizuExecutablePath(value: string) {
    && Printable(value)
    && IsAbsolute(value)
    && FileName(value).Some?
    && (FileName(value).value == "aizu" || EqIgnoreAsciiCase(FileName(value).value, "aizu.exe"))
  }

  predicate CanonicalQuotedAizuExecutable(value: string) {
    match Unwrap(value)
    case None => false
    case Some(inner) =>
      var executable := Unescape(inner);
      ShellQuote(executable) == value && IsAizuExecutablePath(executable)
  }

  // ---- Which paths name aizu ----

  /** The components with a slash between each two. */
  function JoinPath(parts: seq<string>): string {
    if parts == [] then "" else if |parts| == 1 then parts[0] else parts[0] + "/" + JoinPath(parts[1..])
  }

  /** Splitting cuts a path at its slashes and loses nothing. */
  lemma {:induction false} SplitIsFaithful(path: string)
    ensures JoinPath(SplitPath(path)) == path
    ensures forall part :: part in SplitPath(path) ==> '/' !in part
  {
    if path != "" {
      SplitIsFaithful(path[1..]);
      var rest, parts := SplitPath(path[1..]), SplitPath(path);
      if path[0] == '/' {
        assert parts == [""] + rest && parts[1..] == rest;
        assert JoinPath(parts) == "" + "/" + JoinPath(rest);
      } else {
        var first := [path[0]] + rest[0];
        assert parts == [first] + rest[1..] && parts[1..] == rest[1..];
        assert rest[0] in rest;
        if |rest| > 1 {
          assert JoinPath(rest) == rest[0] + "/" + JoinPath(rest[1..]);
          assert [path[0]] + (rest[0] + "/" + JoinPath(rest[1..])) == first + "/" + JoinPath(rest[1..]);
        }
      }
      assert path == [path[0]] + path[1..];
    }
  }

  /** The name is the last component that is neither empty nor a dot, and no parent reference. */
  ghost predicate Names(parts: seq<string>, name: string) {
    exists k :: 0 <= k < |parts| && parts[k] == name && name != "" && name != "." && name != ".."
                && forall i :: k < i < |parts| ==> parts[i] == "" || parts[i] == "."
  }

  lemma {:induction false} LastNameIff(parts: seq<string>, name: string)
    ensures LastName(parts) == Some(name) <==> Names(parts, name)
  {
    if parts != [] {
      var m := |parts| - 1;
      LastNameIff(parts[..m], name);
      if Names(parts, name) && (parts[m] == "" || parts[m] == ".") {
        var k :| 0 <= k < |parts| && parts[k] == name && name != "" && name != "." && name != ".."
                 && forall i :: k < i < |parts| ==> parts[i] == "" || parts[i] == ".";
        assert parts[..m][k] == name;
      }
      if Names(parts[..m], name) && (parts[m] == "" || parts[m] == ".") {
        var k :| 0 <= k < m && parts[..m][k] == name && forall i :: k < i < m ==> parts[..m][i] == "" || parts[..m][i] == ".";
        forall i | k < i < |parts| ensures parts[i] == "" || parts[i] == "." {
          if i < m { assert parts[..m][i] == parts[i]; }
        }
      }
    }
  }

  /** aizu.exe in any mixture of cases. */
  ghost predicate AizuExe(name: string) {
    && |name| == 8 && name[0] in "aA" && name[1] in "iI" && name[2] in "zZ" && name[3] in "uU" && name[4] == '.'
    && name[5] in "eE" && name[6] in "xX" && name[7] in "eE"
  }

  lemma LowersTo(c: char, lower: char)
    requires 'a' <= lower <= 'z' || lower == '.'
    ensures AsciiLower(c) == AsciiLower(lower) <==> c == lower || (lower != '.' && c as int == lower as int - 32)
  {
  }

  lemma AizuExeIff(name: string)
    ensures EqIgnoreAsciiCase(name, "aizu.exe") <==> AizuExe(name)
  {
    if |name| == 8 {
      var lower := "aizu.exe";
      LowersTo(name[0], 'a');
      LowersTo(name[1], 'i');
      LowersTo(name[2], 'z');
      LowersTo(name[3], 'u');
      LowersTo(name[4], '.');
      LowersTo(name[5], 'e');
      LowersTo(name[6], 'x');
      LowersTo(name[7], 'e');
    }
  }

  /** An executable counts as aizu exactly when its path is absolute, control-free and so named. */
  lemma AizuPathIff(value: string)
    ensures IsAizuExecutablePath(value)
       <==> && (forall c :: c in value ==> !IsControl(c)) && value != "" && value[0] == '/'
            && exists name :: Names(SplitPath(value), name) && (name == "aizu" || AizuExe(name))
  {
    hide SplitPath, Names, AizuExe, EqIgnoreAsciiCase;
    var parts := SplitPath(value);
    if FileName(value).Some? {
      LastNameIff(parts, FileName(value).value);
      AizuExeIff(FileName(value).value);
    }
    if name :| Names(parts, name) && (name == "aizu" || AizuExe(name)) {
      LastNameIff(parts, name);
      AizuExeIff(name);
    }
    assert Printable(value) <==> forall c :: c in value ==> !IsControl(c) by {
      if Printable(value) {
        forall c | c in value ensures !IsControl(c) {
          var i :| 0 <= i < |value| && value[i] == c;
        }
      } else {
        var i :| 0 <= i < |value| && IsControl(value[i]);
        assert value[i] in value;
      }
    }
  }

  // ---- The recogniser undoes the quoter ----

  lemma {:induction false} UnescapeEscape(value: string)
    ensures Unescape(Escape(value)) == value
  {
    if value != "" {
      UnescapeEscape(value[1..]);
      var rest := Escape(value[1..]);
      if value[0] == APOSTROPHE {
        assert ESCAPED_APOSTROPHE <= ESCAPED_APOSTROPHE + rest;
        assert (ESCAPED_APOSTROPHE + rest)[|ESCAPED_APOSTROPHE|..] == rest;
      } else {
        assert ([value[0]] + rest)[0] != ESCAPED_APOSTROPHE[0];
        assert !(ESCAPED_APOSTROPHE <= [value[0]] + rest);
        assert ([value[0]] + rest)[1..] == rest;
      }
    }
  }

  lemma UnwrapQuoted(value: string)
    ensures Unwrap(ShellQuote(value)) == Some(Escape(value))
  {
    assert ShellQuote(value)[1..|ShellQuote(value)| - 1] == Escape(value);
  }

  /** Quoting is injective. */
  lemma QuotingIsInjective(a: string, b: string)
    requires ShellQuote(a) == ShellQuote(b)
    ensures a == b
  {
    UnwrapQuoted(a);
    UnwrapQuoted(b);
    UnescapeEscape(a);
    UnescapeEscape(b);
  }

  /** The recogniser accepts exactly the quotations of aizu executables. */
  lemma CanonicalIffQuoted(value: string)
    ensures CanonicalQuotedAizuExecutable(value) <==> exists path :: value == ShellQuote(path) && IsAizuExecutablePath(path)
  {
    hide IsAizuExecutablePath, Escape, Unescape;
    if path :| value == ShellQuote(path) && IsAizuExecutablePath(path) {
      UnwrapQuoted(path);
      UnescapeEscape(path);
    }
  }

  // ---- What a shell makes of it ----

  datatype Quote = Bare | Single | Double

  /** Unquoted characters with a meaning of their own, which no word below contains (section 2.2 of POSIX.1 XCU). */
  predicate Special(c: char) {
    c in "|&;<>()$`\\*?[#~=%{}!\t\n"
  }

  function Grow(word: Option<string>, c: char): Option<string> {
    Some((if word.Some? then word.value else "") + [c])
  }

  function Open(word: Option<string>): Option<string> {
    Some(if word.Some? then word.value else "")
  }

  /** The fields a shell splits a command into, quotes removed; None when quotes do not close or a special character acts. */
  function Fields(command: string, quote: Quote, word: Option<string>): Option<seq<string>> {
    if command == "" then
      if quote != Bare then None else Some(if word.Some? then [word.value] else [])
    else
      var c, rest := command[0], command[1..];
      match quote
      case Single => if c == '\'' then Fields(rest, Bare, word) else Fields(rest, Single, Grow(word, c))
      case Double =>
        if c == '"' then Fields(rest, Bare, word)
        else if c in "$`\\" then None
        else Fields(rest, Double, Grow(word, c))
      case Bare =>
        if c == '\'' then Fields(rest, Single, Open(word))
        else if c == '"' then Fields(rest, Double, Open(word))
        else if c == ' ' then
          if word.None? then Fields(rest, Bare, None)
          else
            match Fields(rest, Bare, None)
            case None => None
            case Some(fields) => Some([word.value] + fields)
        else if Special(c) then None
        else Fields(rest, Bare, Grow(word, c))
  }

  lemma FieldsStep(c: char, rest: string, quote: Quote, word: Option<string>)
    ensures Fields([c] + rest, quote, word)
         == match quote
            case Single => if c == '\'' then Fields(rest, Bare, word) else Fields(rest, Single, Grow(word, c))
            case Double =>
              if c == '"' then Fields(rest, Bare, word)
              else if c in "$`\\" then None
              else Fields(rest, Double, Grow(word, c))
            case Bare =>
              if c == '\'' then Fields(rest, Single, Open(word))
              else if c == '"' then Fields(rest, Double, Open(word))
              else if c == ' ' then
                if word.None? then Fields(rest, Bare, None)
                else
                  match Fields(rest, Bare, None)
                  case None => None
                  case Some(fields) => Some([word.value] + fields)
              else if Special(c) then None
              else Fields(rest, Bare, Grow(word, c))
  {
    assert ([c] + rest)[1..] == rest;
  }

  /** Inside single quotes, an escaped apostrophe adds one apostrophe to the word and leaves the quotes open. */
  lemma EscapedApostropheStep(rest: string, word: string)
    ensures Fields(ESCAPED_APOSTROPHE + rest, Single, Some(word)) == Fields(rest, Single, Some(word + "'"))
  {
    hide Fields;
    assert ESCAPED_APOSTROPHE + rest == ['\''] + (['"'] + (['\''] + (['"'] + (['\''] + rest))));
    FieldsStep('\'', ['"'] + (['\''] + (['"'] + (['\''] + rest))), Single, Some(word));
    FieldsStep('"', ['\''] + (['"'] + (['\''] + rest)), Bare, Some(word));
    FieldsStep('\'', ['"'] + (['\''] + rest), Double, Some(word));
    FieldsStep('"', ['\''] + rest, Double, Some(word + "'"));
    FieldsStep('\'', rest, Bare, Some(word + "'"));
  }

  lemma {:induction false} EscapedInsideQuotes(value: string, rest: string, word: string)
    ensures Fields(Escape(value) + "'" + rest, Single, Some(word)) == Fields(rest, Bare, Some(word + value))
    decreases |value|
  {
    hide Fields;
    if value == "" {
      assert Escape(value) + "'" + rest == ['\''] + rest;
      FieldsStep('\'', rest, Single, Some(word));
      assert word + value == word;
    } else {
      var more := Escape(value[1..]) + "'" + rest;
      var grown := word + [value[0]];
      EscapedInsideQuotes(value[1..], rest, grown);
      assert grown + value[1..] == word + value;
      if value[0] == APOSTROPHE {
        assert Escape(value) + "'" + rest == ESCAPED_APOSTROPHE + more;
        EscapedApostropheStep(more, word);
      } else {
        assert Escape(value) + "'" + rest == [value[0]] + more;
        FieldsStep(value[0], more, Single, Some(word));
      }
    }
  }

  /** A quoted value is one word to the shell, the value itself, whatever it contains. */
  lemma QuotedIsOneWord(value: string, rest: string)
    ensures Fields(ShellQuote(value) + rest, Bare, None) == Fields(rest, Bare, Some(value))
  {
    hide Fields;
    assert ShellQuote(value) + rest == ['\''] + (Escape(value) + "'" + rest);
    FieldsStep('\'', Escape(value) + "'" + rest, Bare, None);
    EscapedInsideQuotes(value, rest, "");
    assert "" + value == value;
  }

  predicate Plain(text: string) {
    forall c :: c in text ==> c != ' ' && c != '\'' && c != '"' && !Special(c)
  }

  lemma {:induction false} PlainWord(text: string, rest: string, word: string)
    requires Plain(text)
    ensures Fields(text + rest, Bare, Some(word)) == Fields(rest, Bare, Some(word + text))
    decreases |text|
  {
    hide Fields;
    if text == "" {
      assert text + rest == rest && word + text == word;
    } else {
      assert text[0] in text && forall c :: c in text[1..] ==> c in text;
      assert text + rest == [text[0]] + (text[1..] + rest);
      FieldsStep(text[0], text[1..] + rest, Bare, Some(word));
      PlainWord(text[1..], rest, word + [text[0]]);
      assert (word + [text[0]]) + text[1..] == word + text;
    }
  }

  /** Words joined to a command line, each behind one space. */
  function Arguments(words: seq<string>): string {
    if words == [] then "" else " " + words[0] + Arguments(words[1..])
  }

  /** A space ends a word, and the plain text behind it starts the next one. */
  lemma NextWord(first: string, more: string, word: string)
    requires first != "" && Plain(first)
    ensures Fields([' '] + (first + more), Bare, Some(word))
         == var rest := Fields(more, Bare, Some(first)); if rest.None? then None else Some([word] + rest.value)
  {
    hide Fields, Special;
    FieldsStep(' ', first + more, Bare, Some(word));
    assert first + more == [first[0]] + (first[1..] + more);
    assert first[0] in first && forall c :: c in first[1..] ==> c in first;
    FieldsStep(first[0], first[1..] + more, Bare, None);
    PlainWord(first[1..], more, "" + [first[0]]);
    assert ("" + [first[0]]) + first[1..] == first;
  }

  lemma {:induction false} ArgumentsAreFields(words: seq<string>, word: string)
    requires forall w :: w in words ==> w != "" && Plain(w)
    ensures Fields(Arguments(words), Bare, Some(word)) == Some([word] + words)
    decreases |words|
  {
    hide Fields, Plain;
    if words == [] {
      NoMoreFields(word);
      assert [word] + words == [word];
    } else {
      var first, more := words[0], Arguments(words[1..]);
      assert first in words && forall w :: w in words[1..] ==> w in words;
      assert Arguments(words) == [' '] + (first + more);
      NextWord(first, more, word);
      ArgumentsAreFields(words[1..], first);
      assert [first] + words[1..] == words;
    }
  }

  lemma NoMoreFields(word: string)
    ensures Fields("", Bare, Some(word)) == Some([word])
  {
  }

  /** A shell given a quoted executable and plain arguments runs exactly that executable with exactly those arguments. */
  lemma ShellRunsExactly(executable: string, words: seq<string>)
    requires forall w :: w in words ==> w != "" && Plain(w)
    ensures Fields(ShellQuote(executable) + Arguments(words), Bare, None) == Some([executable] + words)
  {
    hide Fields;
    QuotedIsOneWord(executable, Arguments(words));
    ArgumentsAreFields(words, executable);
  }
}

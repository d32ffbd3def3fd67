/** The shell quoter of the benchmark setup against a reader of shell words (native-authoring-setup.ts). */
module ShellQuote {
  import opened Json

  const NUL := '\0'

  function Escaped(value: string): string {
    if value == "" then ""
    else (if value[0] == '\'' then "'\\''" else [value[0]]) + Escaped(value[1..])
  }

  function Quote(value: string): string {
    "'" + Escaped(value) + "'"
  }

  /** The command line that `run` hands to `bash -lc`. */
  function RunLine(command: string): string {
    "timeout 240 bash -lc " + Quote(command)
  }

  /** The command that scaffolds a workspace. */
  function BootstrapCommand(packageSpec: string): string {
    "AI_AGENT=claude EVE_INIT_PACKAGE_SPEC=" + Quote(packageSpec) + " eve init . --model openai/gpt-5.5"
  }

  // ----- a reader of shell words: POSIX.1-2017, Shell Command Language, sections 2.2.1 and 2.2.2

  /** Between two words, in the unquoted part of one, or between single quotes. */
  datatype Mode = Between | InWord | Quoted

  /** Characters that mean something to the shell when unquoted, beyond blanks, quotes and backslash. */
  predicate IsSpecial(c: char) {
    c in {'|', '&', ';', '<', '>', '(', ')', '$', '`', '"', '\n', '*', '?', '[', '#', '~', '!', '{', '}', NUL}
  }

  /** A character of a plain word. */
  predicate IsPlain(c: char) {
    'a' <= c <= 'z' || 'A' <= c <= 'Z' || '-' <= c <= '9' || c == '_' || c == '='
  }

  function Prepend(word: string, words: Option<seq<string>>): Option<seq<string>> {
    if words.Some? then Some([word] + words.value) else None
  }

  /** The words of `s`, `word` being what has been read of the current one; none for lines outside the fragment. */
  function Read(s: string, mode: Mode, word: string): Option<seq<string>>
    decreases |s|
  {
    if s == "" then
      match mode
      case Between => Some([])
      case InWord => Some([word])
      case Quoted => None
    else
      var c, rest := s[0], s[1..];
      if mode.Quoted? then
        if c == NUL then None
        else if c == '\'' then Read(rest, InWord, word)
        else Read(rest, Quoted, word + [c])
      else if c == ' ' || c == '\t' then
        if mode.InWord? then Prepend(word, Read(rest, Between, "")) else Read(rest, Between, "")
      else if c == '\'' then Read(rest, Quoted, word)
      else if c == '\\' then
        if rest == "" || rest[0] == NUL then None
        else if rest[0] == '\n' then Read(rest[1..], mode, word)
        else Read(rest[1..], InWord, word + [rest[0]])
      else if IsSpecial(c) then None
      else Read(rest, InWord, word + [c])
  }

  function Words(line: string): Option<seq<string>> {
    Read(line, Between, "")
  }

  predicate NulFree(s: string) {
    forall i :: 0 <= i < |s| ==> s[i] != NUL
  }

  // ----- reading back what was quoted

  /** A quote inside quotes: the quoted part ends, an escaped quote follows, and a new quoted part begins. */
  lemma ReadEscapedQuote(after: string, word: string)
    ensures Read("'\\''" + after, Quoted, word) == Read(after, Quoted, word + "'")
  {
    var input := "'\\''" + after;
    assert input[1..] == "\\''" + after;
    assert Read(input, Quoted, word) == Read(input[1..], InWord, word);
    ReadBackslashQuote(after, word);
  }

  lemma ReadBackslashQuote(after: string, word: string)
    ensures Read("\\''" + after, InWord, word) == Read(after, Quoted, word + "'")
  {
    var input := "\\''" + after;
    assert input[1..] == "''" + after;
    assert input[1..][1..] == "'" + after;
    assert input[1..][1..][1..] == after;
    assert Read(input, InWord, word) == Read(input[1..][1..], InWord, word + "'");
  }

  lemma ReadOneQuoted(c: char, after: string, word: string)
    requires c != '\''
    ensures Read([c] + after, Quoted, word) == if c == NUL then None else Read(after, Quoted, word + [c])
  {
    assert ([c] + after)[1..] == after;
  }

  lemma NulFreeCons(c: char, more: string)
    ensures NulFree([c] + more) <==> c != NUL && NulFree(more)
  {
    assert ([c] + more)[0] == c;
    assert forall i :: 0 <= i < |more| ==> more[i] == ([c] + more)[i + 1];
  }

  /** Inside quotes, the escaped text and the closing quote are read as the text itself. */
  lemma {:induction false} ReadEscaped(value: string, rest: string, word: string)
    ensures Read(Escaped(value) + "'" + rest, Quoted, word)
      == if NulFree(value) then Read(rest, InWord, word + value) else None
  {
    if value == "" {
      assert Escaped(value) + "'" + rest == "'" + rest;
      assert ("'" + rest)[1..] == rest && word + value == word;
    } else {
      var c, more := value[0], value[1..];
      var after := Escaped(more) + "'" + rest;
      assert value == [c] + more;
      NulFreeCons(c, more);
      ReadEscaped(more, rest, word + [c]);
      assert word + value == word + [c] + more;
      if c == '\'' {
        assert Escaped(value) + "'" + rest == "'\\''" + after;
        ReadEscapedQuote(after, word);
      } else {
        assert Escaped(value) + "'" + rest == [c] + after;
        ReadOneQuoted(c, after, word);
      }
    }
  }

  /** A quoted value is read as itself and joins the word it stands in. */
  lemma ReadQuoted(value: string, rest: string, mode: Mode, word: string)
    requires !mode.Quoted?
    ensures Read(Quote(value) + rest, mode, word) == if NulFree(value) then Read(rest, InWord, word + value) else None
  {
    var input := Quote(value) + rest;
    assert input[1..] == Escaped(value) + "'" + rest;
    ReadEscaped(value, rest, word);
  }

  /** Quoting round trip: a quoted value is one word, equal to the value, exactly when the value has no NUL. */
  lemma QuoteRoundTrip(value: string)
    ensures Words(Quote(value)) == Some([value]) <==> NulFree(value)
    ensures Words(Quote(value)) == None <==> !NulFree(value)
  {
    ReadQuoted(value, "", Between, "");
    assert Quote(value) + "" == Quote(value) && "" + value == value;
  }

  predicate IsPlainWord(w: string) {
    forall i :: 0 <= i < |w| ==> IsPlain(w[i])
  }

  lemma {:induction false} ReadPlain(w: string, rest: string, mode: Mode, word: string)
    requires IsPlainWord(w) && !mode.Quoted? && (w != "" || mode.InWord?)
    ensures Read(w + rest, mode, word) == Read(rest, InWord, word + w)
  {
    if w == "" {
      assert w + rest == rest && word + w == word;
    } else {
      var input := w + rest;
      assert input[0] == w[0] && IsPlain(w[0]);
      assert input[1..] == w[1..] + rest;
      assert word + w == word + [w[0]] + w[1..];
      ReadPlain(w[1..], rest, InWord, word + [w[0]]);
    }
  }

  /** Plain words, each followed by a blank. */
  function Spaced(words: seq<string>): string {
    if words == [] then "" else words[0] + " " + Spaced(words[1..])
  }

  predicate ArePlain(words: seq<string>) {
    forall i :: 0 <= i < |words| ==> words[i] != "" && IsPlainWord(words[i])
  }

  function Joined(words: seq<string>, tail: Option<seq<string>>): Option<seq<string>> {
    if tail.Some? then Some(words + tail.value) else None
  }

  lemma ReadOneSpaced(w: string, after: string)
    requires w != "" && IsPlainWord(w)
    ensures Words(w + " " + after) == Prepend(w, Words(after))
  {
    ReadPlain(w, " " + after, Between, "");
    assert w + " " + after == w + (" " + after);
    assert "" + w == w && (" " + after)[1..] == after;
  }

  lemma {:induction false} ReadSpaced(words: seq<string>, rest: string)
    requires ArePlain(words)
    ensures Words(Spaced(words) + rest) == Joined(words, Words(rest))
  {
    if words == [] {
      assert Spaced(words) + rest == rest;
      JoinNone(Words(rest));
    } else {
      var first, more := words[0], words[1..];
      ReadOneSpaced(first, Spaced(more) + rest);
      assert Spaced(words) + rest == first + " " + (Spaced(more) + rest);
      assert ArePlain(more);
      ReadSpaced(more, rest);
      JoinOne(first, more, Words(rest));
      assert words == [first] + more;
    }
  }

  lemma JoinNone(tail: Option<seq<string>>)
    ensures Joined([], tail) == tail
  {
    assert tail.Some? ==> [] + tail.value == tail.value;
  }

  lemma JoinOne(first: string, more: seq<string>, tail: Option<seq<string>>)
    ensures Prepend(first, Joined(more, tail)) == Joined([first] + more, tail)
  {
    assert tail.Some? ==> [first] + (more + tail.value) == [first] + more + tail.value;
  }

  /** Words after a quoted value: a blank and plain words, the last without one. */
  lemma ReadTail(word: string, words: seq<string>, last: string)
    requires ArePlain(words) && last != "" && IsPlainWord(last)
    ensures Read(" " + (Spaced(words) + last), InWord, word) == Some([word] + words + [last])
  {
    var after := Spaced(words) + last;
    assert (" " + after)[1..] == after;
    ReadSpaced(words, last);
    ReadPlain(last, "", Between, "");
    assert last + "" == last && "" + last == last;
    assert [word] + (words + [last]) == [word] + words + [last];
  }

  const RUN_WORDS := ["timeout", "240", "bash", "-lc"]

  lemma RunWordsArePlain()
    ensures ArePlain(RUN_WORDS) && Spaced(RUN_WORDS) == "timeout 240 bash -lc "
  {
    SpacedFour("timeout", "240", "bash", "-lc");
  }

  /** The line that `run` builds is read as a call of bash with the command as its one argument. */
  lemma RunLineReads(command: string)
    requires NulFree(command)
    ensures Words(RunLine(command)) == Some(RUN_WORDS + [command])
  {
    RunWordsArePlain();
    ReadSpaced(RUN_WORDS, Quote(command));
    QuoteRoundTrip(command);
  }

  /** A plain head and a quoted value make one word. */
  lemma ReadHeadAndQuoted(head: string, value: string, rest: string)
    requires IsPlainWord(head) && NulFree(value)
    ensures Words(head + (Quote(value) + rest)) == Read(rest, InWord, head + value)
  {
    if head == "" {
      assert head + (Quote(value) + rest) == Quote(value) + rest;
      ReadQuoted(value, rest, Between, "");
      assert "" + value == head + value;
    } else {
      ReadPlain(head, Quote(value) + rest, Between, "");
      assert "" + head == head;
      ReadQuoted(value, rest, InWord, head);
    }
  }

  /** Any command line with one quoted argument among plain words is read as those words and that argument. */
  lemma QuotedAmongPlain(before: seq<string>, head: string, value: string, middle: seq<string>, last: string)
    requires ArePlain(before) && ArePlain(middle) && IsPlainWord(head) && IsPlainWord(last) && last != ""
    requires NulFree(value)
    ensures Words(Spaced(before) + (head + (Quote(value) + (" " + (Spaced(middle) + last)))))
      == Some(before + [head + value] + middle + [last])
  {
    var tail := " " + (Spaced(middle) + last);
    ReadSpaced(before, head + (Quote(value) + tail));
    ReadHeadAndQuoted(head, value, tail);
    ReadTail(head + value, middle, last);
    assert before + ([head + value] + middle + [last]) == before + [head + value] + middle + [last];
  }

  const BEFORE_SPEC := ["AI_AGENT=claude"]
  const SPEC_HEAD := "EVE_INIT_PACKAGE_SPEC="
  const AFTER_SPEC := ["eve", "init", ".", "--model"]
  const LAST_WORD := "openai/gpt-5.5"

  lemma BootstrapWordsArePlain()
    ensures ArePlain(BEFORE_SPEC) && IsPlainWord(SPEC_HEAD) && ArePlain(AFTER_SPEC) && IsPlainWord(LAST_WORD)
  {
  }

  lemma SpacedOnce(w: string)
    ensures Spaced([w]) == w + " "
  {
    assert [w][1..] == [];
    assert w + " " + "" == w + " ";
  }

  lemma SpacedFour(a: string, b: string, c: string, d: string)
    ensures Spaced([a, b, c, d]) == a + " " + (b + " " + (c + " " + (d + " ")))
  {
    SpacedOnce(d);
    assert [c, d][1..] == [d];
    assert Spaced([c, d]) == c + " " + (d + " ");
    assert [b, c, d][1..] == [c, d];
    assert Spaced([b, c, d]) == b + " " + (c + " " + (d + " "));
    assert [a, b, c, d][1..] == [b, c, d];
  }

  lemma Regroup(a: string, b: string, c: string, d: string)
    ensures (a + b) + c + d == a + (b + (c + d))
  {
  }

  lemma BootstrapFront()
    ensures Spaced(BEFORE_SPEC) + SPEC_HEAD == "AI_AGENT=claude EVE_INIT_PACKAGE_SPEC="
  {
    SpacedOnce("AI_AGENT=claude");
  }

  lemma AfterSpec()
    ensures Spaced(AFTER_SPEC) == "eve init . --model "
  {
    SpacedFour("eve", "init", ".", "--model");
  }

  lemma BootstrapBack()
    ensures " " + (Spaced(AFTER_SPEC) + LAST_WORD) == " eve init . --model openai/gpt-5.5"
  {
    AfterSpec();
  }

  lemma BootstrapIsSpaced(packageSpec: string)
    ensures BootstrapCommand(packageSpec)
      == Spaced(BEFORE_SPEC) + (SPEC_HEAD + (Quote(packageSpec) + (" " + (Spaced(AFTER_SPEC) + LAST_WORD))))
  {
    BootstrapFront();
    BootstrapBack();
    Regroup(Spaced(BEFORE_SPEC), SPEC_HEAD, Quote(packageSpec), " " + (Spaced(AFTER_SPEC) + LAST_WORD));
  }

  lemma BootstrapIsNulFree(packageSpec: string)
    requires NulFree(packageSpec)
    ensures NulFree(BootstrapCommand(packageSpec))
  {
    EscapedIsNulFree(packageSpec);
  }

  lemma {:induction false} EscapedIsNulFree(value: string)
    requires NulFree(value)
    ensures NulFree(Escaped(value))
  {
    if value != "" {
      EscapedIsNulFree(value[1..]);
      assert value[0] != NUL;
    }
  }

  /**
   * Two levels of quoting come apart in two readings: the outer shell passes the bootstrap command on whole, and
   * the inner shell finds the package spec in it unchanged.
   */
  lemma NestedQuotingRoundTrip(packageSpec: string)
    requires NulFree(packageSpec)
    ensures Words(RunLine(BootstrapCommand(packageSpec))) == Some(RUN_WORDS + [BootstrapCommand(packageSpec)])
    ensures Words(BootstrapCommand(packageSpec))
      == Some(BEFORE_SPEC + [SPEC_HEAD + packageSpec] + AFTER_SPEC + [LAST_WORD])
  {
    BootstrapIsNulFree(packageSpec);
    RunLineReads(BootstrapCommand(packageSpec));
    BootstrapWordsArePlain();
    BootstrapIsSpaced(packageSpec);
    QuotedAmongPlain(BEFORE_SPEC, SPEC_HEAD, packageSpec, AFTER_SPEC, LAST_WORD);
  }
}

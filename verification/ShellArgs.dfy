/** shellParseArgs of the shell: words are unescaped into the buffer they are read from. */
module ShellArgs {
  import opened Sequences

  // ----- what a command line means -----

  predicate IsSpace(c: char) { c == ' ' || c == '\t' || c == '\n' || c == '\U{B}' || c == '\U{C}' || c == '\r' }

  predicate Ends(c: char) { IsSpace(c) || c == '|' }

  /** What a backslash in front of c stands for. */
  function Unescape(c: char): string {
    if c == 'n' then "\n" else if c == 'r' then "\r" else if c == '"' || c == ' ' || c == '|' then [c] else ['\\', c]
  }

  /** The text of a word, and what follows it: nothing, or the space or bar that ended it. */
  datatype Word = Word(text: string, rest: string)

  function NextWord(s: string, quoted: bool): (w: Word)
    ensures |w.rest| <= |s| && (w.rest != [] ==> Ends(w.rest[0]))
    ensures s != [] && (quoted || !Ends(s[0])) ==> |w.rest| < |s|
  {
    if s == [] || (!quoted && Ends(s[0])) then Word([], s)
    else if s[0] != '\\' then Before([s[0]], NextWord(s[1..], quoted != (s[0] == '"')))
    else if |s| == 1 then Word("\\", [])
    else Before(Unescape(s[1]), NextWord(s[2..], quoted))
  }

  function Before(t: string, w: Word): Word { w.(text := t + w.text) }

  /** A word in quotes loses them. */
  function Strip(t: string): string {
    if |t| >= 2 && t[0] == '"' && t[|t| - 1] == '"' then t[1..|t| - 1] else t
  }

  /** The arguments of a command line, at most `room` words and bars (one more if the last word is ended by a
      bar); None stands for a bar. */
  function Parse(s: string, room: nat): seq<Option<string>>
    decreases |s|, 0
  {
    if s == [] then []
    else if IsSpace(s[0]) then Parse(s[1..], room)
    else if room == 0 then []
    else if s[0] == '|' then [None] + Parse(s[1..], room - 1)
    else
      var w := NextWord(s, false);
      [Some(Strip(w.text))] + After(w.rest, room - 1)
  }

  /** Behind a word. */
  function After(rest: string, room: nat): seq<Option<string>>
    decreases |rest|, 1
  {
    if rest == [] then []
    else if rest[0] == '|' then [None] + Parse(rest[1..], if room > 0 then room - 1 else 0)
    else Parse(rest[1..], room)
  }

  /** Never more than one above the limit, and that only by a bar right behind the last word. */
  lemma {:induction false} AtMostOneMore(s: string, room: nat)
    ensures |Parse(s, room)| <= room + 1
    ensures |Parse(s, room)| == room + 1 ==> Parse(s, room)[room].None? && room > 0
    decreases |s|
  {
    if s != [] {
      if IsSpace(s[0]) {
        AtMostOneMore(s[1..], room);
      } else if room > 0 {
        if s[0] == '|' {
          AtMostOneMore(s[1..], room - 1);
        } else {
          var rest := NextWord(s, false).rest;
          if rest != [] {
            AtMostOneMore(rest[1..], if rest[0] == '|' then (if room > 1 then room - 2 else 0) else room - 1);
            NothingLeft(rest[1..]);
          }
        }
      }
    }
  }

  lemma {:induction false} NothingLeft(s: string)
    ensures Parse(s, 0) == []
  {
    if s != [] && IsSpace(s[0]) {
      NothingLeft(s[1..]);
    }
  }

  /** The line behind its first n arguments, a word or a bar each, from the next argument on. */
  function LineFrom(s: string, n: nat): string
    decreases |s|
  {
    if s == [] then []
    else if IsSpace(s[0]) then LineFrom(s[1..], n)
    else if n == 0 then s
    else if s[0] == '|' then LineFrom(s[1..], n - 1)
    else LineFrom(NextWord(s, false).rest, n - 1)
  }

  /** The line begins with a word, and the word is ended by a bar. */
  predicate BarBehindWord(s: string) {
    s != [] && !Ends(s[0]) && var rest := NextWord(s, false).rest; rest != [] && rest[0] == '|'
  }

  /** One argument more than the limit: if and only if the last word for which there is room is ended by a bar. */
  lemma {:induction false} OneMoreExact(s: string, room: nat)
    ensures |Parse(s, room)| == room + 1 <==> room > 0 && BarBehindWord(LineFrom(s, room - 1))
    decreases |s|
  {
    if s != [] {
      if IsSpace(s[0]) {
        OneMoreExact(s[1..], room);
      } else if room > 0 {
        if s[0] == '|' {
          OneMoreExact(s[1..], room - 1);
        } else {
          OneMoreWord(s, room);
        }
      }
    }
  }

  lemma {:induction false} OneMoreWord(s: string, room: nat)
    requires s != [] && !Ends(s[0]) && room > 0
    ensures |Parse(s, room)| == room + 1 <==> BarBehindWord(LineFrom(s, room - 1))
    decreases |s|, 0
  {
    var rest := NextWord(s, false).rest;
    if rest != [] {
      if rest[0] != '|' {
        OneMoreExact(rest[1..], room - 1);
      } else if room > 1 {
        OneMoreExact(rest[1..], room - 2);
      } else {
        NothingLeft(rest[1..]);
      }
    }
  }

  const MAX_ARGS := 30

  /** shellParseArgs is called with room for MAX_ARGS + 2 pointers, and two more are written behind the arguments:
      they fit if and only if the 30th argument is not a word that is ended by a bar. */
  lemma TerminatorFits(line: string)
    ensures |Parse(line, MAX_ARGS)| + 1 < MAX_ARGS + 2 <==> !BarBehindWord(LineFrom(line, MAX_ARGS - 1))
  {
    AtMostOneMore(line, MAX_ARGS);
    OneMoreExact(line, MAX_ARGS);
  }

  /** The line "a a … a|" of n words. */
  function Words(n: nat): string { if n <= 1 then "a|" else "a " + Words(n - 1) }

  /** For every limit, the caller's included, there is a line with one argument more. */
  lemma {:induction false} OneMoreExample(room: nat)
    requires room > 0
    ensures |Parse(Words(room), room)| == room + 1
    ensures room == MAX_ARGS ==> |Parse(Words(room), room)| + 1 == MAX_ARGS + 2
  {
    var s := Words(room);
    assert s[0] == 'a' && (s[1] == ' ' || s[1] == '|');
    assert NextWord(s[1..], false) == Word([], s[1..]);
    assert NextWord(s, false).rest == s[1..];
    if room > 1 {
      OneMoreExample(room - 1);
      assert s[1..][1..] == Words(room - 1);
    } else {
      NothingLeft(s[1..][1..]);
    }
  }

  // ----- writing a line that means given arguments -----

  /** Characters that a backslash changes when it stands in front of them. */
  predicate Escapable(c: char) { c == 'n' || c == 'r' || c == '"' || c == ' ' || c == '|' }

  /** Words that can be written: every backslash is followed by a character that it does not change. */
  predicate Writable(w: string) {
    if w == [] then true
    else if w[0] != '\\' then Writable(w[1..])
    else |w| >= 2 && !Escapable(w[1]) && Writable(w[2..])
  }

  /** How a character other than a backslash is written. */
  function Escaped(c: char): string {
    if c == '\n' then "\\n" else if c == '\r' then "\\r"
    else if c == '"' then "\\\"" else if c == ' ' then "\\ " else if c == '|' then "\\|" else [c]
  }

  /** The word without quotes around it. */
  function Bare(w: string): string
    requires Writable(w)
  {
    if w == [] then [] else if w[0] != '\\' then Escaped(w[0]) + Bare(w[1..]) else w[..2] + Bare(w[2..])
  }

  function InQuotes(w: string): string
    requires Writable(w)
  {
    "\"" + Bare(w) + "\""
  }

  lemma BeforeTwice(x: string, y: string, w: Word)
    ensures Before(x, Before(y, w)) == Before(x + y, w)
  {
    assert x + (y + w.text) == (x + y) + w.text;
  }

  lemma Assoc(x: string, y: string, z: string)
    ensures (x + y) + z == x + (y + z)
  {
  }

  lemma ReadPlain(c: char, rest: string, quoted: bool)
    requires c != '\\' && (quoted || !Ends(c))
    ensures NextWord([c] + rest, quoted) == Before([c], NextWord(rest, quoted != (c == '"')))
  {
    assert ([c] + rest)[1..] == rest;
  }

  lemma ReadEscape(c: char, rest: string, quoted: bool)
    ensures NextWord(['\\', c] + rest, quoted) == Before(Unescape(c), NextWord(rest, quoted))
  {
    var s := ['\\', c] + rest;
    assert s[0] == '\\' && s[1] == c && s[2..] == rest;
  }

  lemma ReadEnd(c: char, rest: string)
    requires Ends(c)
    ensures NextWord([c] + rest, false) == Word([], [c] + rest)
  {
  }

  /** Outside of quotes, spaces that have no escape would end the word. */
  predicate Spaceless(w: string) { forall c :: c in w ==> c == ' ' || c == '\n' || c == '\r' || !IsSpace(c) }

  /** The written text, followed by anything, is read as the word followed by what that is read as. */
  lemma {:induction false} ReadBack(w: string, rest: string, quoted: bool)
    requires Writable(w) && (quoted || Spaceless(w))
    ensures NextWord(Bare(w) + rest, quoted) == Before(w, NextWord(rest, quoted))
  {
    if w == [] {
      assert [] + rest == rest;
      assert [] + NextWord(rest, quoted).text == NextWord(rest, quoted).text;
    } else if w[0] != '\\' {
      ReadBack(w[1..], rest, quoted);
      ReadChar(w[0], Bare(w[1..]) + rest, quoted);
      Assoc(Escaped(w[0]), Bare(w[1..]), rest);
      BeforeTwice([w[0]], w[1..], NextWord(rest, quoted));
      assert [w[0]] + w[1..] == w;
    } else {
      ReadBack(w[2..], rest, quoted);
      assert w[..2] == ['\\', w[1]];
      ReadEscape(w[1], Bare(w[2..]) + rest, quoted);
      Assoc(w[..2], Bare(w[2..]), rest);
      BeforeTwice(w[..2], w[2..], NextWord(rest, quoted));
      assert w[..2] + w[2..] == w;
    }
  }

  lemma ReadChar(c: char, rest: string, quoted: bool)
    requires c != '\\' && (quoted || c == ' ' || c == '\n' || c == '\r' || !IsSpace(c))
    ensures NextWord(Escaped(c) + rest, quoted) == Before([c], NextWord(rest, quoted))
  {
    if |Escaped(c)| == 1 {
      ReadPlain(c, rest, quoted);
    } else {
      assert Escaped(c) == ['\\', Escaped(c)[1]];
      ReadEscape(Escaped(c)[1], rest, quoted);
    }
  }

  /** A quoted word in front of a space is read as the word with its quotes. */
  lemma QuotedWord(w: string, rest: string)
    requires Writable(w)
    ensures NextWord(InQuotes(w) + ([' '] + rest), false) == Word(['"'] + w + ['"'], [' '] + rest)
  {
    var tail := [' '] + rest;
    Assoc(['"'] + Bare(w), ['"'], tail);
    Assoc(['"'], Bare(w), ['"'] + tail);
    ReadPlain('"', Bare(w) + (['"'] + tail), false);
    ReadBack(w, ['"'] + tail, true);
    ReadPlain('"', tail, true);
    ReadEnd(' ', rest);
    BeforeTwice(w, ['"'], Word([], tail));
    BeforeTwice(['"'], w + ['"'], Word([], tail));
    Assoc(['"'], w, ['"']);
    assert ['"'] + (w + ['"']) + [] == ['"'] + (w + ['"']);
  }

  lemma QuotesGo(w: string)
    ensures Strip(['"'] + w + ['"']) == w
  {
    var t := ['"'] + w + ['"'];
    assert t[1..|t| - 1] == w;
  }

  lemma ParseWord(w: string, more: string, room: nat)
    requires Writable(w) && room > 0
    ensures Parse(InQuotes(w) + " " + more, room) == [Some(w)] + Parse(more, room - 1)
  {
    var s, tail := InQuotes(w) + " " + more, [' '] + more;
    Assoc(InQuotes(w), " ", more);
    QuotedWord(w, more);
    QuotesGo(w);
    assert s[0] == '"' && tail[0] == ' ' && tail[1..] == more;
    assert After(tail, room - 1) == Parse(more, room - 1);
  }

  lemma ParseBar(more: string, room: nat)
    requires room > 0
    ensures Parse("| " + more, room) == [None] + Parse(more, room - 1)
  {
    var s := "| " + more;
    assert s[0] == '|' && s[1..] == [' '] + more && s[1..][1..] == more;
  }

  function Written(arg: Option<string>): string
    requires arg.Some? ==> Writable(arg.value)
  {
    if arg.None? then "| " else InQuotes(arg.value) + " "
  }

  function Line(args: seq<Option<string>>): string
    requires forall i :: 0 <= i < |args| && args[i].Some? ==> Writable(args[i].value)
  {
    if args == [] then [] else Written(args[0]) + Line(args[1..])
  }

  /** Any arguments, written as a line, are read back, as far as there is room. */
  lemma {:induction false} RoundTrip(args: seq<Option<string>>, room: nat)
    requires forall i :: 0 <= i < |args| && args[i].Some? ==> Writable(args[i].value)
    ensures Parse(Line(args), room) == if |args| <= room then args else args[..room]
  {
    if room == 0 {
      NothingLeft(Line(args));
    } else if args != [] {
      RoundTrip(args[1..], room - 1);
      LineStep(args, room);
      FirstAndRest(args, room);
    }
  }

  lemma LineStep(args: seq<Option<string>>, room: nat)
    requires forall i :: 0 <= i < |args| && args[i].Some? ==> Writable(args[i].value)
    requires args != [] && room > 0
    ensures Parse(Line(args), room) == [args[0]] + Parse(Line(args[1..]), room - 1)
  {
    var more := Line(args[1..]);
    if args[0].None? { ParseBar(more, room); } else { ParseWord(args[0].value, more, room); }
  }

  lemma FirstAndRest<A>(s: seq<A>, n: nat)
    requires s != [] && n > 0
    ensures [s[0]] + (if |s[1..]| <= n - 1 then s[1..] else s[1..][..n - 1]) == if |s| <= n then s else s[..n]
  {
  }

  /** A word without special characters stands for itself, and so does an escaped one without quotes at both ends. */
  lemma BareWord(w: string, more: string, room: nat)
    requires w != [] && Writable(w) && Spaceless(w) && room > 0 && Strip(w) == w
    ensures Parse(Bare(w) + (" " + more), room) == [Some(w)] + Parse(more, room - 1)
  {
    var tail := " " + more;
    ReadBack(w, tail, false);
    ReadEnd(' ', more);
    assert w + [] == w && tail[1..] == more;
    BareBegins(w, tail);
    assert After(tail, room - 1) == Parse(more, room - 1);
  }

  lemma BareBegins(w: string, tail: string)
    requires w != [] && Writable(w) && Spaceless(w)
    ensures Bare(w) != [] && !Ends((Bare(w) + tail)[0])
  {
    assert w[0] in w;
    if w[0] != '\\' {
      assert (Bare(w) + tail)[0] == Escaped(w[0])[0];
    } else {
      assert (Bare(w) + tail)[0] == w[0];
    }
  }

  lemma {:induction false} Plain(w: string)
    requires forall c :: c in w ==> !Ends(c) && c != '"' && c != '\\'
    ensures Writable(w) && Bare(w) == w
  {
    if w != [] {
      assert w[0] in w;
      Plain(w[1..]);
    }
  }

  /** Nothing else can be written: the text of every word that is read is writable, unless the line ends in a backslash
      that escapes nothing. */
  lemma {:induction false} OnlyWritable(s: string, quoted: bool)
    ensures WritableOrCut(NextWord(s, quoted))
    decreases |s|
  {
    if s != [] && (quoted || !Ends(s[0])) {
      if s[0] != '\\' {
        OnlyWritable(s[1..], quoted != (s[0] == '"'));
        MoreWritable([s[0]], NextWord(s[1..], quoted != (s[0] == '"')));
      } else if |s| > 1 {
        OnlyWritable(s[2..], quoted);
        MoreWritable(Unescape(s[1]), NextWord(s[2..], quoted));
      }
    }
  }

  predicate WritableOrCut(w: Word) {
    Writable(w.text) || (w.rest == [] && |w.text| > 0 && w.text[|w.text| - 1] == '\\')
  }

  lemma MoreWritable(u: string, w: Word)
    requires WritableOrCut(w)
    requires (|u| == 1 && u[0] != '\\') || (|u| == 2 && u[0] == '\\' && !Escapable(u[1]))
    ensures WritableOrCut(Before(u, w))
  {
    assert (u + w.text)[|u|..] == w.text;
  }

  lemma TwoWords(x: string, y: string, room: nat)
    requires x != [] && Writable(x) && Spaceless(x) && Strip(x) == x && room >= 2
    requires y != [] && Writable(y) && Spaceless(y) && Strip(y) == y
    ensures Parse(Bare(x) + (" " + (Bare(y) + (" " + ""))), room) == [Some(x), Some(y)]
  {
    BareWord(x, Bare(y) + (" " + ""), room);
    LastWord(y, room - 1);
  }

  lemma LastWord(y: string, room: nat)
    requires y != [] && Writable(y) && Spaceless(y) && Strip(y) == y && room > 0
    ensures Parse(Bare(y) + (" " + ""), room) == [Some(y)]
  {
    BareWord(y, "", room);
    assert [Some(y)] + [] == [Some(y)];
  }

  /** A line with an escape in it. */
  lemma EscapeExample(room: nat)
    requires room >= 2
    ensures Parse("echo a\\nb ", room) == [Some("echo"), Some("a\nb")]
  {
    BareEcho();
    BareOf();
    TwoWords("echo", "a\nb", room);
    assert "echo" + (" " + ("a\\nb" + (" " + ""))) == "echo a\\nb ";
  }

  lemma BareEcho()
    ensures Writable("echo") && Bare("echo") == "echo" && Spaceless("echo") && Strip("echo") == "echo"
  {
    Plain("echo");
  }

  lemma BareOf()
    ensures Writable("a\nb") && Bare("a\nb") == "a\\nb" && Spaceless("a\nb") && Strip("a\nb") == "a\nb"
  {
    assert "a\nb"[1..] == "\nb" && "\nb"[1..] == "b" && "b"[1..] == "";
    assert Writable("b") && Writable("\nb");
    assert Bare("b") == "b" && Bare("\nb") == "\\nb";
  }

  // ----- the tokenizer with an output of its own -----

  datatype State = Blank | Text | Quote | Escape | QuoteEscape

  /** One character: the next state, the text of the word so far, the arguments finished, or the end of the parse. */
  datatype Act = Act(state: State, text: string, done: seq<Option<string>>, stop: bool)

  function OnChar(st: State, c: char, text: string, room: nat): Act {
    match st
    case Blank =>
      if IsSpace(c) then Act(Blank, [], [], false)
      else if room == 0 then Act(Blank, [], [], true)
      else if c == '|' then Act(Blank, [], [None], false)
      else if c == '\\' then Act(Escape, [], [], false)
      else Act(if c == '"' then Quote else Text, [c], [], false)
    case Text =>
      if Ends(c) then Act(Blank, [], [Some(Strip(text))] + (if c == '|' then [None] else []), false)
      else if c == '\\' then Act(Escape, text, [], false)
      else Act(if c == '"' then Quote else Text, text + [c], [], false)
    case Quote =>
      if c == '\\' then Act(QuoteEscape, text, [], false)
      else Act(if c == '"' then Text else Quote, text + [c], [], false)
    case Escape => Act(Text, text + Unescape(c), [], false)
    case QuoteEscape => Act(Quote, text + Unescape(c), [], false)
  }

  function OnEnd(st: State, text: string): seq<Option<string>> {
    match st
    case Blank => []
    case Text => [Some(Strip(text))]
    case Quote => [Some(Strip(text))]
    case Escape => [Some(text + "\\")]
    case QuoteEscape => [Some(text + "\\")]
  }

  function Finish(text: string, w: Word, room: nat): seq<Option<string>> {
    [Some(Strip(text + w.text))] + After(w.rest, if room > 0 then room - 1 else 0)
  }

  /** The arguments still to come, in any state. */
  function Left(s: string, st: State, text: string, room: nat): seq<Option<string>> {
    match st
    case Blank => Parse(s, room)
    case Text => Finish(text, NextWord(s, false), room)
    case Quote => Finish(text, NextWord(s, true), room)
    case Escape => Finish(text, NextWord(['\\'] + s, false), room)
    case QuoteEscape => Finish(text, NextWord(['\\'] + s, true), room)
  }

  function Less(room: nat, n: nat): nat { if n < room then room - n else 0 }

  lemma FirstOfWord(s: string, room: nat)
    requires s != [] && !Ends(s[0]) && room > 0
    ensures Parse(s, room) ==
            if s[0] == '\\' then Left(s[1..], Escape, [], room)
            else Left(s[1..], if s[0] == '"' then Quote else Text, [s[0]], room)
  {
    assert s == [s[0]] + s[1..];
    var w := NextWord(s, false);
    assert Parse(s, room) == [Some(Strip(w.text))] + After(w.rest, room - 1);
    assert [] + w.text == w.text;
  }

  lemma LeftBlank(s: string, room: nat)
    requires s != []
    ensures var a := OnChar(Blank, s[0], [], room);
            Left(s, Blank, [], room) ==
            a.done + (if a.stop then [] else Left(s[1..], a.state, a.text, Less(room, |a.done|)))
  {
    if !Ends(s[0]) && room > 0 {
      FirstOfWord(s, room);
    }
  }

  lemma LeftText(s: string, text: string, room: nat)
    requires s != [] && room > 0
    ensures var a := OnChar(Text, s[0], text, room);
            Left(s, Text, text, room) == a.done + Left(s[1..], a.state, a.text, Less(room, |a.done|)) && !a.stop
  {
    assert s == [s[0]] + s[1..];
    if Ends(s[0]) {
      assert text + [] == text;
    } else if s[0] != '\\' {
      var w := NextWord(s[1..], s[0] == '"');
      assert text + ([s[0]] + w.text) == text + [s[0]] + w.text;
    }
  }

  lemma LeftQuote(s: string, text: string, room: nat)
    requires s != [] && room > 0
    ensures var a := OnChar(Quote, s[0], text, room);
            Left(s, Quote, text, room) == a.done + Left(s[1..], a.state, a.text, Less(room, |a.done|)) && !a.stop
  {
    assert s == [s[0]] + s[1..];
    if s[0] != '\\' {
      var w := NextWord(s[1..], s[0] != '"');
      assert text + ([s[0]] + w.text) == text + [s[0]] + w.text;
    }
  }

  lemma LeftEscape(s: string, st: State, text: string, room: nat)
    requires s != [] && room > 0 && (st.Escape? || st.QuoteEscape?)
    ensures var a := OnChar(st, s[0], text, room);
            Left(s, st, text, room) == a.done + Left(s[1..], a.state, a.text, Less(room, |a.done|)) && !a.stop
  {
    var t := ['\\'] + s;
    assert t[1] == s[0] && t[2..] == s[1..];
    var w := NextWord(s[1..], st.QuoteEscape?);
    assert text + (Unescape(s[0]) + w.text) == text + Unescape(s[0]) + w.text;
  }

  /** Character by character the tokenizer yields what the line means. */
  lemma LeftStep(s: string, st: State, text: string, room: nat)
    requires s != [] && (st.Blank? ==> text == []) && (!st.Blank? ==> room > 0)
    ensures var a := OnChar(st, s[0], text, room);
            Left(s, st, text, room) ==
            a.done + (if a.stop then [] else Left(s[1..], a.state, a.text, Less(room, |a.done|)))
  {
    match st
    case Blank => LeftBlank(s, room);
    case Text => LeftText(s, text, room);
    case Quote => LeftQuote(s, text, room);
    case _ => LeftEscape(s, st, text, room);
  }

  lemma LeftEnd(st: State, text: string, room: nat)
    ensures Left([], st, text, room) == OnEnd(st, text)
  {
    assert text + [] == text;
    assert ['\\'] + [] == "\\";
  }

  // ----- the buffer -----

  /** A C string with this text starts at p. */
  ghost predicate HoldsString(s: seq<char>, p: nat, t: string) {
    p + |t| < |s| && s[p..p + |t|] == t && s[p + |t|] == '\0' && '\0' !in t
  }

  /** A finished argument, all of it below `base`. */
  ghost predicate ArgOk(s: seq<char>, a: Option<nat>, o: Option<string>, base: nat) {
    match o
    case None => a.None?
    case Some(t) => a.Some? && HoldsString(s, a.value, t) && a.value + |t| < base
  }

  ghost predicate ArgsOk(s: seq<char>, args: seq<Option<nat>>, out: seq<Option<string>>, base: nat) {
    |out| <= |args| && forall k {:trigger ArgOk(s, args[k], out[k], base)} ::
        0 <= k < |out| ==> ArgOk(s, args[k], out[k], base)
  }

  /** What has not been read is as it was. */
  ghost predicate Unread(input: string, s: seq<char>, src: nat) {
    && |input| < |s| && src <= |input| && '\0' !in input && s[|input|] == '\0'
    && forall i :: src <= i < |input| ==> s[i] == input[i]
  }

  /** The word in hand starts at b and ends at the write position. */
  ghost predicate InHand(s: seq<char>, args: seq<Option<nat>>, count: nat, dst: nat, text: string) {
    && count < |args| && args[count].Some? && args[count].value + |text| == dst <= |s|
    && s[args[count].value..dst] == text && '\0' !in text
  }

  ghost function Base(args: seq<Option<nat>>, st: State, count: nat, dst: nat): nat {
    if st.Blank? || count >= |args| || args[count].None? then dst else args[count].value
  }

  /** The write position never passes the read position, and a pending backslash leaves room for two. */
  ghost predicate Behind(st: State, src: nat, dst: nat) {
    if st.Escape? || st.QuoteEscape? then dst < src else dst <= src
  }

  /** Where everything stands between two characters. */
  datatype Spot = Spot(st: State, count: nat, src: nat, dst: nat)

  /** Buffer and arguments hold what the tokenizer has put out so far. */
  ghost predicate Mirrors(input: string, s: seq<char>, args: seq<Option<nat>>, maxArgs: nat, at: Spot,
                          out: seq<Option<string>>, text: string) {
    && Unread(input, s, at.src) && Behind(at.st, at.src, at.dst) && at.count == |out| <= maxArgs + 1 <= |args|
    && ArgsOk(s, args, out, Base(args, at.st, at.count, at.dst))
    && (if at.st.Blank? then text == [] else at.count < maxArgs && InHand(s, args, at.count, at.dst, text))
    && (at.st.Text? || at.st.Quote? ==> text != [])
  }

  /** Writing from `base` on leaves finished arguments alone. */
  lemma ArgsStay(s: seq<char>, s': seq<char>, args: seq<Option<nat>>, args': seq<Option<nat>>,
                 out: seq<Option<string>>, base: nat, base': nat)
    requires ArgsOk(s, args, out, base) && base <= base' && |s'| == |s| && |args'| == |args|
    requires (forall i :: 0 <= i < base && i < |s| ==> s'[i] == s[i]) && forall k ::
               0 <= k < |out| ==> args'[k] == args[k]
    ensures ArgsOk(s', args', out, base')
  {
    forall k | 0 <= k < |out|
      ensures ArgOk(s', args'[k], out[k], base')
    {
      assert ArgOk(s, args[k], out[k], base);
      if out[k].Some? {
        var p, t := args[k].value, out[k].value;
        assert s'[p..p + |t|] == s[p..p + |t|];
      }
    }
  }

  lemma ArgsSnoc(s: seq<char>, args: seq<Option<nat>>, out: seq<Option<string>>, o: Option<string>, base: nat)
    requires ArgsOk(s, args, out, base) && |out| < |args| && ArgOk(s, args[|out|], o, base)
    ensures ArgsOk(s, args, out + [o], base)
  {
    var all := out + [o];
    forall k | 0 <= k < |all|
      ensures ArgOk(s, args[k], all[k], base)
    {
      assert k < |out| ==> ArgOk(s, args[k], out[k], base);
    }
  }

  /** One more character of the word in hand. */
  lemma TextGrows(s: seq<char>, args: seq<Option<nat>>, count: nat, dst: nat, text: string, c: char)
    requires InHand(s, args, count, dst, text) && dst < |s| && c != '\0'
    ensures InHand(s[dst := c], args, count, dst + 1, text + [c])
  {
    var b, s' := args[count].value, s[dst := c];
    assert s'[b..dst + 1] == s[b..dst] + [c];
  }

  lemma UnreadStays(input: string, s: seq<char>, src: nat, dst: nat, c: char)
    requires Unread(input, s, src) && src < |input| && dst <= src
    ensures Unread(input, s[dst := c], src + 1)
  {
  }

  // ----- one character, in place -----

  lemma CopyKeeps(input: string, s: seq<char>, args: seq<Option<nat>>, maxArgs: nat, at: Spot,
                  out: seq<Option<string>>, text: string, st': State)
    requires Mirrors(input, s, args, maxArgs, at, out, text) && at.src < |input| && !at.st.Blank?
             && (st'.Text? || st'.Quote?)
    ensures var c := input[at.src];
            Mirrors(input, s[at.dst := c], args, maxArgs, at.(st := st', src := at.src + 1, dst := at.dst + 1), out,
                text + [c])
  {
    var c := input[at.src];
    UnreadStays(input, s, at.src, at.dst, c);
    TextGrows(s, args, at.count, at.dst, text, c);
    ArgsStay(s, s[at.dst := c], args, args, out, args[at.count].value, args[at.count].value);
  }

  lemma HoldKeeps(input: string, s: seq<char>, args: seq<Option<nat>>, maxArgs: nat, at: Spot,
                  out: seq<Option<string>>, text: string, st': State)
    requires Mirrors(input, s, args, maxArgs, at, out, text) && at.src < |input| && !at.st.Blank?
             && (st'.Escape? || st'.QuoteEscape?)
    ensures Mirrors(input, s, args, maxArgs, at.(st := st', src := at.src + 1), out, text)
  {
  }

  /** A word begins: its start is noted. */
  lemma BeginKeeps(input: string, s: seq<char>, args: seq<Option<nat>>, maxArgs: nat, at: Spot,
                   out: seq<Option<string>>)
    requires Mirrors(input, s, args, maxArgs, at, out, []) && at.src < |input| && at.st.Blank? && at.count < maxArgs
    ensures var args' := args[at.count := Some(at.dst)];
            Unread(input, s, at.src) && ArgsOk(s, args', out, at.dst) && InHand(s, args', at.count, at.dst, [])
  {
    ArgsStay(s, s, args, args[at.count := Some(at.dst)], out, at.dst, at.dst);
  }

  lemma StartKeeps(input: string, s: seq<char>, args: seq<Option<nat>>, maxArgs: nat, at: Spot,
                   out: seq<Option<string>>, st': State)
    requires Mirrors(input, s, args, maxArgs, at, out, []) && at.src < |input| && at.st.Blank? && at.count < maxArgs
             && (st'.Text? || st'.Quote?)
    ensures var c := input[at.src];
            Mirrors(input, s[at.dst := c], args[at.count := Some(at.dst)], maxArgs,
                    at.(st := st', src := at.src + 1, dst := at.dst + 1), out, [c])
  {
    var c, args' := input[at.src], args[at.count := Some(at.dst)];
    BeginKeeps(input, s, args, maxArgs, at, out);
    UnreadStays(input, s, at.src, at.dst, c);
    TextGrows(s, args', at.count, at.dst, [], c);
    ArgsStay(s, s[at.dst := c], args', args', out, at.dst, at.dst);
    assert [] + [c] == [c];
  }

  lemma StartEscapeKeeps(input: string, s: seq<char>, args: seq<Option<nat>>, maxArgs: nat, at: Spot,
                         out: seq<Option<string>>)
    requires Mirrors(input, s, args, maxArgs, at, out, []) && at.src < |input| && at.st.Blank? && at.count < maxArgs
    ensures Mirrors(input, s, args[at.count := Some(at.dst)], maxArgs, at.(st := Escape, src := at.src + 1), out, [])
  {
    BeginKeeps(input, s, args, maxArgs, at, out);
  }

  /** A bar of its own, or right behind a word. */
  lemma BarKeeps(s: seq<char>, args: seq<Option<nat>>, out: seq<Option<string>>, base: nat)
    requires ArgsOk(s, args, out, base) && |out| < |args|
    ensures ArgsOk(s, args[|out| := None], out + [None], base)
  {
    ArgsStay(s, s, args, args[|out| := None], out, base, base);
    ArgsSnoc(s, args[|out| := None], out, None, base);
  }

  lemma BlankBarKeeps(input: string, s: seq<char>, args: seq<Option<nat>>, maxArgs: nat, at: Spot,
                      out: seq<Option<string>>)
    requires Mirrors(input, s, args, maxArgs, at, out, []) && at.src < |input| && at.st.Blank? && at.count < maxArgs
    ensures Mirrors(input, s, args[at.count := None], maxArgs, at.(src := at.src + 1, count := at.count + 1),
                out + [None], [])
  {
    BarKeeps(s, args, out, at.dst);
  }

  // ----- the end of a word -----

  /** The word is in quotes, as the bytes in the buffer show. */
  predicate Quoted(s: seq<char>, b: nat, dst: nat)
    requires b < dst <= |s|
  {
    s[b] == '"' && dst - 1 > b && s[dst - 1] == '"'
  }

  /** The buffer with the word terminated; a closing quote goes too. */
  function Closed(s: seq<char>, b: nat, dst: nat): seq<char>
    requires b < dst < |s|
  {
    if Quoted(s, b, dst) then s[dst - 1 := '\0'][dst := '\0'] else s[dst := '\0']
  }

  lemma ClosedHolds(s: seq<char>, b: nat, dst: nat, text: string)
    requires b < dst < |s| && s[b..dst] == text && '\0' !in text
    ensures HoldsString(Closed(s, b, dst), if Quoted(s, b, dst) then b + 1 else b, Strip(text))
  {
    var t := Closed(s, b, dst);
    assert |text| == dst - b && text[0] == s[b] && text[|text| - 1] == s[dst - 1];
    if Quoted(s, b, dst) {
      assert t[b + 1..dst - 1] == s[b + 1..dst - 1] == text[1..|text| - 1];
    } else {
      assert t[b..dst] == s[b..dst];
    }
  }

  lemma ClosedArgs(s: seq<char>, args: seq<Option<nat>>, out: seq<Option<string>>, dst: nat, text: string)
    requires |out| < |args| && InHand(s, args, |out|, dst, text) && text != [] && dst < |s|
             && ArgsOk(s, args, out, args[|out|].value)
    ensures var b := args[|out|].value;
            ArgsOk(Closed(s, b, dst), args[|out| := Some(if Quoted(s, b, dst) then b + 1 else b)],
                out + [Some(Strip(text))], dst + 1)
  {
    var b := args[|out|].value;
    var s', args' := Closed(s, b, dst), args[|out| := Some(if Quoted(s, b, dst) then b + 1 else b)];
    ClosedHolds(s, b, dst, text);
    ArgsStay(s, s', args, args', out, b, dst + 1);
    ArgsSnoc(s', args', out, Some(Strip(text)), dst + 1);
  }

  lemma ClosedUnread(input: string, s: seq<char>, src: nat, b: nat, dst: nat)
    requires Unread(input, s, src) && src < |input| && b < dst <= src
    ensures Unread(input, Closed(s, b, dst), src + 1)
  {
  }

  lemma EscapeOne(input: string, s: seq<char>, args: seq<Option<nat>>, maxArgs: nat, at: Spot,
                  out: seq<Option<string>>, text: string, st': State, c: char)
    requires Mirrors(input, s, args, maxArgs, at, out, text) && at.src < |input| && !at.st.Blank?
             && (st'.Text? || st'.Quote?) && c != '\0'
    ensures Mirrors(input, s[at.dst := c], args, maxArgs, at.(st := st', src := at.src + 1, dst := at.dst + 1), out,
                text + [c])
  {
    UnreadStays(input, s, at.src, at.dst, c);
    TextGrows(s, args, at.count, at.dst, text, c);
    ArgsStay(s, s[at.dst := c], args, args, out, args[at.count].value, args[at.count].value);
  }

  lemma EscapeTwo(input: string, s: seq<char>, args: seq<Option<nat>>, maxArgs: nat, at: Spot,
                  out: seq<Option<string>>, text: string, st': State, c: char, d: char)
    requires Mirrors(input, s, args, maxArgs, at, out, text) && at.src < |input|
             && (at.st.Escape? || at.st.QuoteEscape?)
    requires (st'.Text? || st'.Quote?) && c != '\0' && d != '\0'
    ensures Mirrors(input, s[at.dst := c][at.dst + 1 := d], args, maxArgs,
                    at.(st := st', src := at.src + 1, dst := at.dst + 2), out, text + [c, d])
  {
    var s1 := s[at.dst := c];
    TextGrows(s, args, at.count, at.dst, text, c);
    TextGrows(s1, args, at.count, at.dst + 1, text + [c], d);
    assert text + [c] + [d] == text + [c, d];
    ArgsStay(s, s1[at.dst + 1 := d], args, args, out, args[at.count].value, args[at.count].value);
  }

  /** What lies behind the line and the argument slots not yet in use are as they were. */
  ghost predicate Spared(s0: seq<char>, s: seq<char>, n: nat, args0: seq<Option<nat>>, args: seq<Option<nat>>,
                         at: Spot) {
    && |s| == |s0| && |args| == |args0|
    && (forall i :: n < i < |s| ==> s[i] == s0[i])
    && (forall k :: (if at.st.Blank? then at.count else at.count + 1) <= k < |args| ==> args[k] == args0[k])
  }

  /** The parser in the middle of its work, with everything its proof refers to. */
  datatype Ghosts = Ghosts(input: string, s0: seq<char>, args0: seq<Option<nat>>, out: seq<Option<string>>,
      text: string)

  ghost predicate Going(g: Ghosts, s: seq<char>, args: seq<Option<nat>>, maxArgs: nat, at: Spot) {
    Mirrors(g.input, s, args, maxArgs, at, g.out, g.text) && Spared(g.s0, s, |g.input|, g.args0, args, at)
  }

  /** The tokenizer's own view of one character. */
  ghost function Next(g: Ghosts, maxArgs: nat, at: Spot): Act
    requires at.src < |g.input|
  {
    OnChar(at.st, g.input[at.src], g.text, Less(maxArgs, at.count))
  }

  ghost predicate Stepped(g: Ghosts, maxArgs: nat, at: Spot, s: seq<char>, args: seq<Option<nat>>, at': Spot)
    requires at.src < |g.input|
  {
    var a := Next(g, maxArgs, at);
    && !a.stop && at'.st == a.state && at'.src == at.src + 1
    && Going(g.(out := g.out + a.done, text := a.text), s, args, maxArgs, at')
  }

  method StepBlank(str: array<char>, args: array<Option<nat>>, maxArgs: nat, at: Spot, ghost g: Ghosts)
                   returns (at': Spot, stop: bool)
    requires Going(g, str[..], args[..], maxArgs, at) && at.st.Blank? && at.src < |g.input|
    modifies str, args
    ensures stop == Next(g, maxArgs, at).stop
    ensures stop ==> at' == at && str[..] == old(str[..]) && args[..] == old(args[..])
    ensures !stop ==> Stepped(g, maxArgs, at, str[..], args[..], at')
  {
    var c := str[at.src];
    at', stop := at.(src := at.src + 1), false;
    if IsSpace(c) {
      assert g.out + [] == g.out;
      return;
    }
    if at.count >= maxArgs {
      return at, true;
    }
    if c == '|' {
      BlankBarKeeps(g.input, str[..], args[..], maxArgs, at, g.out);
      args[at.count] := None;
      return at'.(count := at.count + 1), false;
    }
    assert g.out + [] == g.out;
    ghost var s, a := str[..], args[..];
    args[at.count] := Some(at.dst);
    if c == '\\' {
      StartEscapeKeeps(g.input, s, a, maxArgs, at, g.out);
      return at'.(st := Escape), false;
    }
    StartKeeps(g.input, s, a, maxArgs, at, g.out, if c == '"' then Quote else Text);
    str[at.dst] := c;
    return at'.(st := if c == '"' then Quote else Text, dst := at.dst + 1), false;
  }

  /** The quotes are dropped and the word is terminated, in the buffer. */
  method CloseWord(str: array<char>, args: array<Option<nat>>, count: nat, dst: nat)
    requires count < args.Length && args[count].Some? && args[count].value < dst < str.Length
    modifies str, args
    ensures var b := old(args[count].value);
            && str[..] == Closed(old(str[..]), b, dst)
            && args[..] == old(args[..])[count := Some(if Quoted(old(str[..]), b, dst) then b + 1 else b)]
  {
    var b := args[count].value;
    if str[b] == '"' && dst - 1 > b && str[dst - 1] == '"' {
      args[count] := Some(b + 1);
      str[dst - 1] := '\0';
    }
    str[dst] := '\0';
  }

  method EndWord(str: array<char>, args: array<Option<nat>>, maxArgs: nat, at: Spot, ghost g: Ghosts)
                 returns (at': Spot)
    requires Going(g, str[..], args[..], maxArgs, at) && at.st.Text? && at.src < |g.input| && Ends(g.input[at.src])
    modifies str, args
    ensures Stepped(g, maxArgs, at, str[..], args[..], at')
  {
    ghost var s, a, b := str[..], args[..], args[at.count].value;
    ClosedArgs(s, a, g.out, at.dst, g.text);
    ClosedUnread(g.input, s, at.src, b, at.dst);
    var c := str[at.src];
    CloseWord(str, args, at.count, at.dst);
    at' := Spot(Blank, at.count + 1, at.src + 1, at.dst + 1);
    if c == '|' {
      assert at'.count <= maxArgs;
      ghost var out := g.out + [Some(Strip(g.text))];
      BarKeeps(str[..], args[..], out, at'.dst);
      assert out + [None] == g.out + ([Some(Strip(g.text))] + [None]);
      args[at'.count] := None;
      at' := at'.(count := at'.count + 1);
    } else {
      assert [Some(Strip(g.text))] + [] == [Some(Strip(g.text))];
    }
  }

  method StepText(str: array<char>, args: array<Option<nat>>, maxArgs: nat, at: Spot, ghost g: Ghosts)
                  returns (at': Spot)
    requires Going(g, str[..], args[..], maxArgs, at) && (at.st.Text? || at.st.Quote?) && at.src < |g.input|
    modifies str, args
    ensures Stepped(g, maxArgs, at, str[..], args[..], at')
  {
    var c := str[at.src];
    if at.st.Text? && Ends(c) {
      at' := EndWord(str, args, maxArgs, at, g);
      return;
    }
    assert g.out + [] == g.out;
    if c == '\\' {
      var st := if at.st.Text? then Escape else QuoteEscape;
      HoldKeeps(g.input, str[..], args[..], maxArgs, at, g.out, g.text, st);
      return at.(st := st, src := at.src + 1);
    }
    var st := if c == '"' then (if at.st.Text? then Quote else Text) else at.st;
    CopyKeeps(g.input, str[..], args[..], maxArgs, at, g.out, g.text, st);
    str[at.dst] := c;
    return at.(st := st, src := at.src + 1, dst := at.dst + 1);
  }

  method StepEscape(str: array<char>, args: array<Option<nat>>, maxArgs: nat, at: Spot, ghost g: Ghosts)
                    returns (at': Spot)
    requires Going(g, str[..], args[..], maxArgs, at) && (at.st.Escape? || at.st.QuoteEscape?) && at.src < |g.input|
    modifies str
    ensures Stepped(g, maxArgs, at, str[..], args[..], at')
  {
    var c := str[at.src];
    var st := if at.st.QuoteEscape? then Quote else Text;
    assert g.out + [] == g.out;
    at' := at.(st := st, src := at.src + 1, dst := at.dst + 1);
    if c == 'n' || c == 'r' || c == '"' || c == ' ' || c == '|' {
      var d := if c == 'n' then '\n' else if c == 'r' then '\r' else c;
      EscapeOne(g.input, str[..], args[..], maxArgs, at, g.out, g.text, st, d);
      str[at.dst] := d;
    } else {
      EscapeTwo(g.input, str[..], args[..], maxArgs, at, g.out, g.text, st, '\\', c);
      str[at.dst] := '\\';
      str[at.dst + 1] := c;
      at' := at'.(dst := at.dst + 2);
    }
  }

  method Step(str: array<char>, args: array<Option<nat>>, maxArgs: nat, at: Spot, ghost g: Ghosts)
              returns (at': Spot, stop: bool)
    requires Going(g, str[..], args[..], maxArgs, at) && at.src < |g.input|
    modifies str, args
    ensures stop == Next(g, maxArgs, at).stop
    ensures stop ==> at' == at && at.st.Blank? && str[..] == old(str[..]) && args[..] == old(args[..])
    ensures !stop ==> Stepped(g, maxArgs, at, str[..], args[..], at')
  {
    stop := false;
    match at.st
    case Blank =>
      at', stop := StepBlank(str, args, maxArgs, at, g);
    case Text =>
      at' := StepText(str, args, maxArgs, at, g);
    case Quote =>
      at' := StepText(str, args, maxArgs, at, g);
    case _ =>
      at' := StepEscape(str, args, maxArgs, at, g);
  }

  /** The line is over. */
  method End(str: array<char>, args: array<Option<nat>>, maxArgs: nat, at: Spot, ghost g: Ghosts) returns (count: nat)
    requires Going(g, str[..], args[..], maxArgs, at) && at.src == |g.input|
    modifies str, args
    ensures var out := g.out + OnEnd(at.st, g.text);
            && count == |out| && count <= maxArgs + 1 && ArgsOk(str[..], args[..], out, |g.input| + 1)
            && Spared(g.s0, str[..], |g.input|, g.args0, args[..], Spot(Blank, count, 0, 0))
  {
    ghost var s, a := str[..], args[..];
    if at.st.Blank? {
      ArgsStay(s, s, a, a, g.out, at.dst, |g.input| + 1);
      assert g.out + [] == g.out;
      return at.count;
    }
    if at.st.Text? || at.st.Quote? {
      ClosedArgs(s, a, g.out, at.dst, g.text);
      CloseWord(str, args, at.count, at.dst);
      ArgsStay(str[..], str[..], args[..], args[..], g.out + [Some(Strip(g.text))], at.dst + 1, |g.input| + 1);
    } else {
      LastBackslash(s, a, g.out, at.dst, g.text, |g.input| + 1);
      str[at.dst] := '\\';
      str[at.dst + 1] := '\0';
    }
    return at.count + 1;
  }

  lemma LastBackslash(s: seq<char>, args: seq<Option<nat>>, out: seq<Option<string>>, dst: nat, text: string, base: nat)
    requires |out| < |args| && InHand(s, args, |out|, dst, text) && dst + 1 < |s| && dst + 1 < base
             && ArgsOk(s, args, out, args[|out|].value)
    ensures ArgsOk(s[dst := '\\'][dst + 1 := '\0'], args, out + [Some(text + "\\")], base)
  {
    var b, s' := args[|out|].value, s[dst := '\\'][dst + 1 := '\0'];
    assert s'[b..dst + 1] == s[b..dst] + "\\";
    ArgsStay(s, s', args, args, out, b, base);
    ArgsSnoc(s', args, out, Some(text + "\\"), base);
  }

  /** shellParseArgs: the buffer ends up holding exactly the arguments of the line, each a string of its own;
      nothing behind the line and no slot behind the last argument is touched. */
  method ParseArgs(str: array<char>, ghost input: string, args: array<Option<nat>>, maxArgs: nat) returns (count: nat)
    requires Unread(input, str[..], 0) && maxArgs < args.Length
    modifies str, args
    ensures var out := Parse(input, maxArgs);
            && count == |out| <= maxArgs + 1 && ArgsOk(str[..], args[..], out, |input| + 1)
            && Spared(old(str[..]), str[..], |input|, old(args[..]), args[..], Spot(Blank, count, 0, 0))
  {
    var at := Spot(Blank, 0, 0, 0);
    ghost var g := Ghosts(input, str[..], args[..], [], []);
    assert input[0..] == input && [] + Parse(input, maxArgs) == Parse(input, maxArgs);
    while str[at.src] != '\0'
      invariant Going(g, str[..], args[..], maxArgs, at) && Owes(g, maxArgs, at)
      invariant g.input == input && g.s0 == old(str[..]) && g.args0 == old(args[..])
      decreases |input| - at.src
    {
      ghost var g';
      var stop;
      at, stop, g' := Advance(str, args, maxArgs, at, g);
      if stop {
        return at.count;
      }
      g := g';
    }
    assert input[at.src..] == [];
    LeftEnd(at.st, g.text, Less(maxArgs, at.count));
    count := End(str, args, maxArgs, at, g);
  }

  /** The finished arguments and those to come make up the line. */
  ghost predicate Owes(g: Ghosts, maxArgs: nat, at: Spot) {
    at.src <= |g.input| && Parse(g.input, maxArgs) == g.out + Left(g.input[at.src..], at.st, g.text,
        Less(maxArgs, at.count))
  }

  /** One turn of the loop. */
  method Advance(str: array<char>, args: array<Option<nat>>, maxArgs: nat, at: Spot, ghost g: Ghosts)
                 returns (at': Spot, stop: bool, ghost g': Ghosts)
    requires Going(g, str[..], args[..], maxArgs, at) && Owes(g, maxArgs, at) && at.src < |g.input|
    modifies str, args
    ensures stop ==> at' == at && g.out == Parse(g.input, maxArgs) && ArgsOk(str[..], args[..], g.out, |g.input| + 1)
    ensures stop ==>
              at.count == |g.out| <= maxArgs + 1 && Spared(g.s0, str[..], |g.input|, g.args0, args[..],
                Spot(Blank, at.count, 0, 0))
    ensures !stop ==> Going(g', str[..], args[..], maxArgs, at') && Owes(g', maxArgs, at') && at'.src == at.src + 1
    ensures g'.input == g.input && g'.s0 == g.s0 && g'.args0 == g.args0
  {
    ghost var a := Next(g, maxArgs, at);
    g' := g.(out := g.out + a.done, text := a.text);
    OwesNext(g, maxArgs, at, at.count + |a.done|);
    at', stop := Step(str, args, maxArgs, at, g);
    if stop {
      ArgsStay(str[..], str[..], args[..], args[..], g.out, at.dst, |g.input| + 1);
    }
  }

  lemma OwesNext(g: Ghosts, maxArgs: nat, at: Spot, count': nat)
    requires Owes(g, maxArgs, at) && at.src < |g.input| && (at.st.Blank? ==> g.text == [])
             && (!at.st.Blank? ==> at.count < maxArgs)
    requires count' == at.count + |Next(g, maxArgs, at).done|
    ensures var a := Next(g, maxArgs, at);
            if a.stop then g.out == Parse(g.input, maxArgs)
            else
              Parse(g.input, maxArgs) ==
              g.out + a.done + Left(g.input[at.src + 1..], a.state, a.text, Less(maxArgs, count'))
  {
    var s, a, room := g.input[at.src..], Next(g, maxArgs, at), Less(maxArgs, at.count);
    LeftStep(s, at.st, g.text, room);
    assert s[1..] == g.input[at.src + 1..];
    LessTwice(maxArgs, at.count, |a.done|);
    var more := if a.stop then [] else Left(g.input[at.src + 1..], a.state, a.text, Less(maxArgs, count'));
    Regroup(Parse(g.input, maxArgs), Left(s, at.st, g.text, room), g.out, a.done, more);
  }

  lemma LessTwice(room: nat, n: nat, k: nat)
    ensures Less(Less(room, n), k) == Less(room, n + k)
  {
  }

  lemma Regroup<A>(whole: seq<A>, part: seq<A>, x: seq<A>, y: seq<A>, z: seq<A>)
    requires whole == x + part && part == y + z
    ensures whole == x + y + z && (y == [] && z == [] ==> whole == x)
  {
  }
}

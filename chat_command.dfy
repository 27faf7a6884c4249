/**
 * The `!clip` command parser: `buildMessage` splits the first message
 * segment's text on single spaces, the handler compares the lower-cased first
 * token with `!clip` and picks the clip length and title from the rest.
 * Also the clip length's upper clamp that `createClip` applies.
 */
module ChatCommand {
  import opened JsValues

  /** `s.split(" ")`: the pieces between single spaces, empty pieces included. */
  function Split(s: string): (r: seq<string>)
    ensures |r| >= 1
    ensures forall k | 0 <= k < |r| :: ' ' !in r[k]
    ensures JoinSpace(r) == s
    decreases |s|
  {
    var i := IndexOf(s, ' ');
    if i == |s| then [s] else [s[..i]] + Split(s[i + 1..])
  }

  /** The number of characters in all of `ts`. */
  function TotalLength(ts: seq<string>): nat
  {
    if ts == [] then 0 else |ts[0]| + TotalLength(ts[1..])
  }

  /**
   * `ts.join(' ')`: the pieces in order with one space between neighbours;
   * the empty list joins to the empty string.
   */
  function JoinSpace(ts: seq<string>): (r: string)
    ensures |ts| == 0 ==> r == ""
    ensures |ts| > 0 ==> ts[0] <= r && |r| == TotalLength(ts) + |ts| - 1
    ensures |ts| > 1 ==> r[|ts[0]|] == ' '
  {
    if |ts| == 0 then ""
    else if |ts| == 1 then ts[0]
    else ts[0] + " " + JoinSpace(ts[1..])
  }

  /** Splitting a space-joined list of space-free tokens gives the tokens back. */
  lemma {:induction false} SplitJoin(ts: seq<string>)
    requires |ts| >= 1
    requires forall k | 0 <= k < |ts| :: ' ' !in ts[k]
    ensures Split(JoinSpace(ts)) == ts
  {
    var s := JoinSpace(ts);
    if |ts| == 1 {
      assert IndexOf(s, ' ') == |s|;
    } else {
      var rest := JoinSpace(ts[1..]);
      assert s == ts[0] + " " + rest;
      assert s[|ts[0]|] == ' ';
      assert IndexOf(s, ' ') == |ts[0]|;
      assert s[..|ts[0]|] == ts[0];
      assert s[|ts[0]| + 1..] == rest;
      SplitJoin(ts[1..]);
    }
  }

  /** ASCII upper-case letters to lower case; every other character is kept. */
  function LowerChar(c: char): char
  {
    if 'A' <= c <= 'Z' then (c as int + 32) as char else c
  }

  /** `s.toLowerCase()` restricted to ASCII letters. */
  function Lower(s: string): (r: string)
    ensures |r| == |s|
    ensures forall k | 0 <= k < |s| :: r[k] == LowerChar(s[k])
  {
    if s == [] then [] else [LowerChar(s[0])] + Lower(s[1..])
  }

  /** `w.toLowerCase() == "!clip"`: a five-character word starting with `!` and holding no space. */
  predicate IsClipWord(w: string)
    ensures IsClipWord(w) ==> |w| == 5 && w[0] == '!' && ' ' !in w
  {
    Lower(w) == "!clip"
  }

  /** The command word is `!clip` in any mix of upper and lower case, and nothing else. */
  lemma ClipWordSpellings(w: string)
    ensures IsClipWord(w) <==>
      |w| == 5 && w[0] == '!' && (w[1] == 'c' || w[1] == 'C') && (w[2] == 'l' || w[2] == 'L')
      && (w[3] == 'i' || w[3] == 'I') && (w[4] == 'p' || w[4] == 'P')
  {
  }

  /**
   * The `length` argument of `createClip` as JavaScript holds it: the number
   * 60 or 300 (`Seconds`), or the chat token itself, a string (`Token`).
   */
  datatype Length = Seconds(n: int) | Token(text: string)

  /** The number `length` coerces to in `length >= 300`; None is NaN. */
  function LengthValue(l: Length): Option<Numeric>
  {
    match l
    case Seconds(n) => Some(Finite(n as real))
    case Token(t) => ToNumber(t)
  }

  const MaxClipSeconds: int := 300
  const DefaultClipSeconds: int := 60

  /**
   * `length >= 300`: a finite length compares by value, the positive
   * infinity reaches the cap, the negative one and NaN never do.
   */
  predicate ReachesCap(l: Length)
    ensures l.Seconds? ==> (ReachesCap(l) <==> l.n >= MaxClipSeconds)
    ensures l.Token? && IsNaN(l.text) ==> !ReachesCap(l)
  {
    var x := LengthValue(l);
    if x.None? then false
    else if x.value.Finite? then x.value.v >= MaxClipSeconds as real
    else !x.value.negative
  }

  function MinReal(a: real, b: real): real
  {
    if a <= b then a else b
  }

  /** `Math.min(x, 300)` over the numbers `Number` yields: NaN stays NaN, +Infinity becomes 300. */
  function MinWithCap(x: Option<Numeric>): Option<Numeric>
  {
    match x
    case None => None
    case Some(Finite(v)) => Some(Finite(MinReal(v, MaxClipSeconds as real)))
    case Some(Infinite(negative)) => if negative then x else Some(Finite(MaxClipSeconds as real))
  }

  /** Clips are at most 300 seconds: only an upper clamp, no lower one. */
  function Clamp(l: Length): (r: Length)
    ensures LengthValue(r) == MinWithCap(LengthValue(l))
    ensures !ReachesCap(l) ==> r == l
    ensures ReachesCap(r) ==> r == Seconds(MaxClipSeconds)
  {
    if ReachesCap(l) then Seconds(MaxClipSeconds) else l
  }

  /** Clamping twice is clamping once, so the retry sends the same length. */
  lemma ClampIdempotent(l: Length)
    ensures Clamp(Clamp(l)) == Clamp(l)
  {
  }

  /** What a recognised command asks `createClip` for. */
  datatype ClipRequest = ClipRequest(length: Length, title: string)

  /** The request made when no usable length follows `!clip`. */
  function DefaultRequest(userName: string): ClipRequest
  {
    ClipRequest(Seconds(DefaultClipSeconds), "Clip by " + userName)
  }

  /** `buildMessage`: the tokens of the first segment's text; None when there is no segment (a TypeError). */
  function BuildMessage(segments: seq<string>): (r: Option<seq<string>>)
    ensures r.Some? <==> |segments| > 0
    ensures r.Some? ==> |r.value| >= 1 && forall k | 0 <= k < |r.value| :: ' ' !in r.value[k]
    ensures r.Some? ==> JoinSpace(r.value) == segments[0]
  {
    if |segments| == 0 then None else Some(Split(segments[0]))
  }

  /**
   * The handler's decision on the first segment's text: no clip unless the
   * text's first space-delimited word is `!clip` in any case; the default
   * request when no second word follows or it is NaN; otherwise the second
   * word as the length and everything after the second space, verbatim, as
   * the title (empty when there is no second space).
   */
  function ParseCommand(text: string, userName: string): (r: Option<ClipRequest>)
    ensures r.Some? <==> IsClipWord(text[..IndexOf(text, ' ')])
    ensures r.Some? && IndexOf(text, ' ') == |text| ==> r.value == DefaultRequest(userName)
    ensures r.Some? && IndexOf(text, ' ') < |text| ==>
      var rest := text[IndexOf(text, ' ') + 1..];
      var arg := rest[..IndexOf(rest, ' ')];
      r.value == if IsNaN(arg) then DefaultRequest(userName)
                 else ClipRequest(Token(arg), if IndexOf(rest, ' ') == |rest| then "" else rest[IndexOf(rest, ' ') + 1..])
  {
    var msg := Split(text);
    TokensOfText(text);
    if !IsClipWord(msg[0]) then None
    else if |msg| < 2 || IsNaN(msg[1]) then Some(DefaultRequest(userName))
    else Some(ClipRequest(Token(msg[1]), JoinSpace(msg[2..])))
  }

  /** The first two tokens are the first two space-delimited words; the ones after them rejoin to the rest of the text. */
  lemma TokensOfText(text: string)
    ensures var i := IndexOf(text, ' ');
      Split(text)[0] == text[..i] && (i == |text| <==> |Split(text)| == 1)
    ensures var i := IndexOf(text, ' ');
      i < |text| ==>
        var rest := text[i + 1..];
        var j := IndexOf(rest, ' ');
        Split(text)[1] == rest[..j]
        && JoinSpace(Split(text)[2..]) == if j == |rest| then "" else rest[j + 1..]
  {
  }

  /** `<command> <length> <title>`: the length word is sent as it is and the title verbatim, spaces and all. */
  lemma {:induction false} LengthAndTitle(w: string, arg: string, title: string, user: string)
    requires IsClipWord(w) && ' ' !in arg && !IsNaN(arg)
    ensures ParseCommand(w + " " + arg + " " + title, user) == Some(ClipRequest(Token(arg), title))
  {
    ClipWordSpellings(w);
    var text := w + " " + arg + " " + title;
    assert text == w + [' '] + (arg + " " + title);
    IndexOfFirst(w, ' ', arg + " " + title);
    assert text[..|w|] == w;
    var rest := text[|w| + 1..];
    assert rest == arg + [' '] + title;
    IndexOfFirst(arg, ' ', title);
    assert rest[..|arg|] == arg && rest[|arg| + 1..] == title;
  }

  /** `<command> <length>`: the length word is sent with an empty title. */
  lemma LengthOnly(w: string, arg: string, user: string)
    requires IsClipWord(w) && ' ' !in arg && !IsNaN(arg)
    ensures ParseCommand(w + " " + arg, user) == Some(ClipRequest(Token(arg), ""))
  {
  }

  /** `!clip 45 My Title Here` asks for 45 seconds titled `My Title Here`. */
  lemma LengthAndTitleExample(user: string)
    ensures ParseCommand("!clip 45 My Title Here", user) == Some(ClipRequest(Token("45"), "My Title Here"))
  {
    assert "!clip 45 My Title Here" == "!clip" + " " + "45" + " " + "My Title Here";
    ClipWordSpellings("!clip");
    LengthAndTitle("!clip", "45", "My Title Here", user);
  }

  /** `!clip 45` asks for 45 seconds with an empty title, not the default one. */
  lemma LengthOnlyExample(user: string)
    ensures ParseCommand("!clip 45", user) == Some(ClipRequest(Token("45"), ""))
  {
    assert "!clip 45" == "!clip" + " " + "45";
    ClipWordSpellings("!clip");
    LengthOnly("!clip", "45", user);
  }

  /** `<command> <word>` with a word that is NaN gives the default request. */
  lemma NaNLength(w: string, arg: string, user: string)
    requires IsClipWord(w) && ' ' !in arg && IsNaN(arg)
    ensures ParseCommand(w + " " + arg, user) == Some(DefaultRequest(user))
  {
  }

  /** A word in place of the length gives the default request. */
  lemma WordLengthExample(user: string)
    ensures ParseCommand("!clip funny", user) == Some(DefaultRequest(user))
  {
    assert "!clip funny" == "!clip" + " " + "funny";
    ClipWordSpellings("!clip");
    WordIsNaN("funny");
    NaNLength("!clip", "funny", user);
  }

  /** The command alone, in any case, gives the default request. */
  lemma BareCommandExample(user: string)
    ensures ParseCommand("!CLIP", user) == Some(DefaultRequest(user))
  {
    ClipWordSpellings("!CLIP");
    IndexOfAbsent("!CLIP", ' ');
  }

  /** The command counts only as the first word. */
  lemma NotFirstWordExample(user: string)
    ensures ParseCommand("nice !clip 45", user) == None
  {
  }

  /**
   * Two spaces after the command make an empty second token, which
   * `isNaN` treats as the number 0: the empty string becomes the length and
   * the next word the title.
   */
  lemma EmptyTokenIsALength(user: string)
    ensures ParseCommand("!clip  best", user) == Some(ClipRequest(Token(""), "best"))
    ensures LengthValue(Token("")) == Some(Finite(0.0))
  {
    assert "!clip  best" == "!clip" + " " + "" + " " + "best";
    ClipWordSpellings("!clip");
    LengthAndTitle("!clip", "", "best", user);
  }

  /** A requested 500 seconds is sent as the number 300. */
  lemma LongClipExample()
    ensures Clamp(Token("500")) == Seconds(300)
  {
    DigitsNumber("500");
    assert "500"[..2] == "50" && "50"[..1] == "5";
  }

  /** A requested -5 seconds is below the cap and sent as the token it was. */
  lemma NegativeLengthExample()
    ensures Clamp(Token("-5")) == Token("-5")
  {
    NegatedDigits("-5");
    assert "-5"[1..] == "5";
  }

  /** `Infinity` is a number, so `!clip Infinity` asks for the longest clip; `-Infinity` is sent as it is. */
  lemma InfinityExamples()
    ensures ToNumber("Infinity") == Some(Infinite(false))
    ensures ToNumber("-Infinity") == Some(Infinite(true))
    ensures Clamp(Token("Infinity")) == Seconds(300)
    ensures Clamp(Token("-Infinity")) == Token("-Infinity")
  {
    TrimmedAlready("Infinity");
    TrimmedAlready("-Infinity");
    assert "-Infinity"[1..] == "Infinity";
  }
}

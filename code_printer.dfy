/** `ShellEscape` of src/compiler/utils/code_printer.cpp: a string is made into one
    single-quoted shell word. Inside single quotes the shell takes every character
    literally except the quote itself, so each quote of the input closes the quoted
    part, is written as a backslash-escaped quote and reopens it. */
module CodePrinter {
  import opened Wrappers

  const Quote := '\''
  const Backslash := '\\'

  /** What a quote of the input becomes: close, escaped quote, reopen. */
  const EscapedQuote := [Quote, Backslash, Quote, Quote]

  /** The number of quotes in `s`. */
  function Quotes(s: string): nat {
    if s == [] then 0 else (if s[0] == Quote then 1 else 0) + Quotes(s[1..])
  }

  function EscapeChar(c: char): string {
    if c == Quote then EscapedQuote else [c]
  }

  /** What the loop of `ShellEscape` appends between the outer quotes. */
  function EscapeBody(s: string): string {
    if s == [] then [] else EscapeChar(s[0]) + EscapeBody(s[1..])
  }

  method ShellEscape(str: string) returns (escaped: string)
    ensures escaped == [Quote] + EscapeBody(str) + [Quote]
    ensures |escaped| == |str| + 2 + 3 * Quotes(str)
    ensures escaped[0] == Quote && escaped[|escaped| - 1] == Quote
    ensures ShellWord(escaped) == Some(str)
  {
    escaped := [Quote];
    for i := 0 to |str|
      invariant escaped == [Quote] + EscapeBody(str[..i])
    {
      assert str[..i + 1] == str[..i] + [str[i]];
      EscapeBodyConcat(str[..i], [str[i]]);
      EscapeBodyOne(str[i]);
      if str[i] == Quote {
        escaped := escaped + EscapedQuote;
      } else {
        escaped := escaped + [str[i]];
      }
    }
    assert str[..|str|] == str;
    escaped := escaped + [Quote];
    EscapeBodyLength(str);
    ShellWordRoundTrip(str);
  }

  lemma {:induction false} EscapeBodyOne(c: char)
    ensures EscapeBody([c]) == EscapeChar(c)
  {
    assert [c][1..] == [];
  }

  /** Escaping works character by character: the escape of a concatenation is the
      concatenation of the escapes. */
  lemma {:induction false} EscapeBodyConcat(a: string, b: string)
    ensures EscapeBody(a + b) == EscapeBody(a) + EscapeBody(b)
  {
    if a == [] {
      assert a + b == b;
    } else {
      assert (a + b)[0] == a[0];
      assert (a + b)[1..] == a[1..] + b;
      EscapeBodyConcat(a[1..], b);
      var c, p, q := EscapeChar(a[0]), EscapeBody(a[1..]), EscapeBody(b);
      assert c + (p + q) == (c + p) + q;
    }
  }

  /** Every quote adds three characters; every other character is copied. */
  lemma {:induction false} EscapeBodyLength(s: string)
    ensures |EscapeBody(s)| == |s| + 3 * Quotes(s)
  {
    if s != [] {
      EscapeBodyLength(s[1..]);
    }
  }

  /** An input without quotes is only wrapped; and only such an input is left
      unchanged by the escape. */
  lemma {:induction false} NoQuotesUnchanged(s: string)
    ensures Quotes(s) == 0 <==> forall k :: 0 <= k < |s| ==> s[k] != Quote
    ensures EscapeBody(s) == s <==> Quotes(s) == 0
  {
    if s != [] {
      NoQuotesUnchanged(s[1..]);
      if s[0] != Quote && Quotes(s[1..]) == 0 {
        assert s == [s[0]] + s[1..];
      }
      if forall k :: 0 <= k < |s| ==> s[k] != Quote {
        assert forall k :: 0 <= k < |s[1..]| ==> s[1..][k] == s[k + 1];
      }
    }
    EscapeBodyLength(s);
  }

  /** Character `k` of the input lands after the escapes of the characters before it:
      a character other than a quote is copied there, and a quote becomes the four
      characters of `EscapedQuote`. */
  lemma {:induction false} EscapePositions(s: string, k: nat)
    requires k < |s|
    ensures var j := k + 3 * Quotes(s[..k]);
      j + |EscapeChar(s[k])| <= |EscapeBody(s)| &&
      (s[k] != Quote ==> EscapeBody(s)[j] == s[k]) &&
      (s[k] == Quote ==> EscapeBody(s)[j..j + 4] == EscapedQuote)
  {
    assert s == s[..k] + ([s[k]] + s[k + 1..]);
    EscapeBodyConcat(s[..k], [s[k]] + s[k + 1..]);
    EscapeBodyConcat([s[k]], s[k + 1..]);
    EscapeBodyOne(s[k]);
    EscapeBodyLength(s[..k]);
    var j := k + 3 * Quotes(s[..k]);
    var body := EscapeBody(s);
    assert body == EscapeBody(s[..k]) + (EscapeChar(s[k]) + EscapeBody(s[k + 1..]));
    assert body[j..j + |EscapeChar(s[k])|] == EscapeChar(s[k]);
  }

  // ----- How the shell reads the word back -----

  function Prefixed(p: string, o: Option<string>): Option<string> {
    if o.None? then None else Some(p + o.value)
  }

  /** The quote removal of the POSIX shell (IEEE Std 1003.1-2017, sections 2.2.1 and
      2.2.2) on a word: outside quotes a backslash takes the next character
      literally and a quote opens a quoted part; inside, every character up to the
      next quote is literal. An unterminated quote or a trailing backslash is no word. */
  function Unquote(t: string, inside: bool): Option<string>
    decreases |t|
  {
    if t == [] then (if inside then None else Some([]))
    else if inside then
      if t[0] == Quote then Unquote(t[1..], false) else Prefixed([t[0]], Unquote(t[1..], true))
    else if t[0] == Quote then Unquote(t[1..], true)
    else if t[0] == Backslash then
      if |t| < 2 then None else Prefixed([t[1]], Unquote(t[2..], false))
    else Prefixed([t[0]], Unquote(t[1..], false))
  }

  function ShellWord(t: string): Option<string> {
    Unquote(t, false)
  }

  lemma {:induction false} PrefixedTwice(a: string, b: string, o: Option<string>)
    ensures Prefixed(a, Prefixed(b, o)) == Prefixed(a + b, o)
  {
    if o.Some? {
      assert a + (b + o.value) == a + b + o.value;
    }
  }

  /** Inside a quoted part, the escape of one character reads back as that
      character, and the reading goes on in a quoted part after it. */
  lemma {:induction false} EscapeCharReads(c: char, rest: string)
    ensures Unquote(EscapeChar(c) + rest, true) == Prefixed([c], Unquote(rest, true))
  {
    if c == Quote {
      var t := EscapedQuote + rest;
      assert t[0] == Quote && t[1..] == [Backslash, Quote, Quote] + rest;
      var u := t[1..];
      assert u[0] == Backslash && u[1] == Quote && u[2..] == [Quote] + rest;
      assert ([Quote] + rest)[0] == Quote && ([Quote] + rest)[1..] == rest;
      assert Unquote(u[2..], false) == Unquote(rest, true);
      assert Unquote(u, false) == Prefixed([Quote], Unquote(rest, true));
      assert EscapeChar(c) + rest == t;
    } else {
      assert ([c] + rest)[0] == c && ([c] + rest)[1..] == rest;
    }
  }

  /** Inside a quoted part, the escape of `s` reads back as `s`, and the reading
      goes on in a quoted part after it. */
  lemma {:induction false} EscapeBodyReads(s: string, tail: string)
    ensures Unquote(EscapeBody(s) + tail, true) == Prefixed(s, Unquote(tail, true))
  {
    if s == [] {
      assert EscapeBody(s) + tail == tail;
      if Unquote(tail, true).Some? {
        assert s + Unquote(tail, true).value == Unquote(tail, true).value;
      }
    } else {
      var rest := EscapeBody(s[1..]) + tail;
      assert EscapeBody(s) + tail == EscapeChar(s[0]) + rest;
      EscapeCharReads(s[0], rest);
      EscapeBodyReads(s[1..], tail);
      PrefixedTwice([s[0]], s[1..], Unquote(tail, true));
      assert [s[0]] + s[1..] == s;
    }
  }

  /** The shell reads the escaped word back as the original string, whatever quotes,
      backslashes or other characters it holds. */
  lemma {:induction false} ShellWordRoundTrip(s: string)
    ensures ShellWord([Quote] + EscapeBody(s) + [Quote]) == Some(s)
  {
    var t := [Quote] + EscapeBody(s) + [Quote];
    assert t[1..] == EscapeBody(s) + [Quote];
    EscapeBodyReads(s, [Quote]);
    assert [Quote][1..] == [];
    assert s + [] == s;
  }

  /** Two strings whose escapes agree are equal: the escape loses nothing. */
  lemma {:induction false} EscapeInjective(s: string, u: string)
    requires EscapeBody(s) == EscapeBody(u)
    ensures s == u
  {
    ShellWordRoundTrip(s);
    ShellWordRoundTrip(u);
  }

  lemma EscapeExamples()
    ensures EscapeBody("abc") == "abc"
    ensures EscapeBody("it's") == "it" + EscapedQuote + "s"
  {
    assert EscapeBody("c") == "c" by { EscapeBodyOne('c'); }
    assert EscapeBody("bc") == "bc" by { assert "bc"[1..] == "c"; }
    assert "abc"[1..] == "bc";
    assert EscapeBody("s") == "s" by { EscapeBodyOne('s'); }
    assert "'s"[1..] == "s";
    assert EscapeBody("'s") == EscapedQuote + "s";
    assert "t's"[1..] == "'s";
    assert "it's"[1..] == "t's";
  }
}

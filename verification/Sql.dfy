/** SQL literals on the admin connection: how values are quoted, how a quoted value reads back,
    and how error messages mask every literal of a statement. */
module Sql {
  import opened Text

  /* ---- quoting ---- */

  predicate IsStripControl(c: char) {
    (c < '\U{0020}' && c != '\t' && c != '\n' && c != '\r') || c == '\U{007F}'
  }

  predicate ControlFree(s: string) {
    forall i | 0 <= i < |s| :: !IsStripControl(s[i])
  }

  function StripControl(s: string): (t: string)
    ensures ControlFree(t)
    ensures ControlFree(s) ==> t == s
  {
    if s == "" then "" else if IsStripControl(s[0]) then StripControl(s[1..]) else [s[0]] + StripControl(s[1..])
  }

  /** The control characters, by their codes: all below space but tab, newline and return, and delete. */
  lemma ControlExactly(c: char)
    ensures IsStripControl(c) <==> c as int == 127 || (c as int < 32 && c as int !in {9, 10, 13})
  {
  }

  /** Stripping drops control characters and nothing else. */
  lemma {:induction false} StripExactly(a: string, b: string)
    ensures StripControl(a + b) == StripControl(a) + StripControl(b)
    ensures |a| == 1 ==> StripControl(a) == if IsStripControl(a[0]) then "" else a
    decreases |a|
  {
    if a == "" {
      assert a + b == b;
    } else {
      assert (a + b)[1..] == a[1..] + b;
      StripExactly(a[1..], b);
      assert StripControl("") == "";
    }
  }

  function Doubled(s: string): (t: string) {
    if s == "" then "" else (if s[0] == '\'' then "''" else [s[0]]) + Doubled(s[1..])
  }

  function Quote(s: string): (literal: string) {
    ['\''] + (Doubled(StripControl(s)) + ['\''])
  }

  /** The value of a text that is one single-quoted SQL literal from end to end. */
  function ReadLiteral(q: string): (value: Option<string>) {
    if q == "" || q[0] != '\'' then None else ReadBody(q[1..])
  }

  function ReadBody(q: string): (value: Option<string>) {
    if q == "" then None
    else if q[0] != '\'' then
      (match ReadBody(q[1..]) case None => None case Some(v) => Some([q[0]] + v))
    else if |q| == 1 then Some("")
    else if q[1] == '\'' then
      (match ReadBody(q[2..]) case None => None case Some(v) => Some("'" + v))
    else None
  }

  lemma {:induction false} ReadDoubled(s: string)
    ensures ReadBody(Doubled(s) + ['\'']) == Some(s)
  {
    if s == "" {
      assert Doubled(s) + ['\''] == ['\''];
    } else {
      var head, rest := if s[0] == '\'' then "''" else [s[0]], Doubled(s[1..]) + ['\''];
      assert Doubled(s) + ['\''] == head + rest;
      assert (head + rest)[|head|..] == rest;
      ReadDoubled(s[1..]);
      assert s == [s[0]] + s[1..];
    }
  }

  /** The admin parser reads back exactly the value, without its control characters. */
  lemma QuoteReadsBack(s: string)
    ensures ReadLiteral(Quote(s)) == Some(StripControl(s))
    ensures ControlFree(s) ==> ReadLiteral(Quote(s)) == Some(s)
  {
    var body := Doubled(StripControl(s)) + ['\''];
    assert Quote(s)[1..] == body;
    ReadDoubled(StripControl(s));
  }

  /* ---- redaction ---- */

  /** Where a scan of a statement stands. `Closing` is just after a delimiter inside a literal:
      the next character decides whether it ended the literal or was an escape. */
  datatype Mode = Outside | Inside(delim: char) | Closing(delim: char)

  predicate IsDelim(c: char) {
    c == '\'' || c == '"'
  }

  function Next(m: Mode, c: char): (next: Mode) {
    match m
    case Outside => if IsDelim(c) then Inside(c) else Outside
    case Inside(d) => if c == d then Closing(d) else m
    case Closing(d) => if c == d then Inside(d) else if IsDelim(c) then Inside(c) else Outside
  }

  /** What a character adds to the masked text. */
  function Shown(m: Mode, c: char): (text: string) {
    match m
    case Outside => if IsDelim(c) then [c] + "***" else [c]
    case Inside(_) => ""
    case Closing(d) => if c == d then "" else [d] + if IsDelim(c) then [c] + "***" else [c]
  }

  function After(m: Mode, s: string): (end: Mode)
    decreases |s|
  {
    if s == "" then m else After(Next(m, s[0]), s[1..])
  }

  function Masked(m: Mode, s: string): (text: string)
    decreases |s|
  {
    if s == "" then "" else Shown(m, s[0]) + Masked(Next(m, s[0]), s[1..])
  }

  /** A literal that the text itself ends still owes its closing delimiter. */
  function Flush(m: Mode): (text: string) {
    if m.Closing? then [m.delim] else ""
  }

  /** redactQuotedLiterals. */
  function Redact(q: string): (text: string) {
    Masked(Outside, q) + Flush(After(Outside, q))
  }

  lemma {:induction false} AfterConcat(m: Mode, a: string, b: string)
    ensures After(m, a + b) == After(After(m, a), b)
    decreases |a|
  {
    hide Next;
    if a == "" {
      assert a + b == b;
    } else {
      assert (a + b)[1..] == a[1..] + b;
      AfterConcat(Next(m, a[0]), a[1..], b);
    }
  }

  lemma {:induction false} MaskedConcat(m: Mode, a: string, b: string)
    ensures After(m, a + b) == After(After(m, a), b)
    ensures Masked(m, a + b) == Masked(m, a) + Masked(After(m, a), b)
    decreases |a|
  {
    hide Next, Shown;
    AfterConcat(m, a, b);
    if a == "" {
      assert a + b == b;
    } else {
      var next := Next(m, a[0]);
      assert (a + b)[1..] == a[1..] + b;
      MaskedConcat(next, a[1..], b);
      assert After(m, a) == After(next, a[1..]);
    }
  }

  lemma MaskedNext(q: string, i: nat)
    requires i < |q|
    ensures After(Outside, q[..i + 1]) == Next(After(Outside, q[..i]), q[i])
    ensures Masked(Outside, q[..i + 1]) == Masked(Outside, q[..i]) + Shown(After(Outside, q[..i]), q[i])
  {
    TakeNext(q, i);
    MaskedConcat(Outside, q[..i], [q[i]]);
    var m := After(Outside, q[..i]);
    assert [q[i]][1..] == "";
    assert After(m, [q[i]]) == Next(m, q[i]) && Masked(m, [q[i]]) == Shown(m, q[i]) + "";
  }

  /** The loop of redactQuotedLiterals: an index, the open delimiter, and one character of
      look-ahead for the doubled delimiter. */
  method RedactQuotedLiterals(q: string) returns (out: string)
    ensures out == Redact(q)
  {
    hide Masked, After;
    NothingMasked(Outside);
    assert q[..0] == "";
    out := "";
    var open: Option<char> := None;
    var i := 0;
    while i < |q|
      invariant 0 <= i <= |q|
      invariant out == Masked(Outside, q[..i]) + Flush(After(Outside, q[..i]))
      invariant match After(Outside, q[..i])
                case Outside => open == None
                case Inside(d) => open == Some(d)
                case Closing(d) => open == None && (i < |q| ==> q[i] != d)
    {
      MaskedNext(q, i);
      var c := q[i];
      if open.None? {
        out := out + [c];
        if IsDelim(c) {
          open := Some(c);
          out := out + "***";
        }
      } else if c == open.value {
        if i + 1 < |q| && q[i + 1] == c {
          MaskedNext(q, i + 1);
          i := i + 1;
        } else {
          out := out + [c];
          open := None;
        }
      }
      i := i + 1;
    }
    assert q[..i] == q;
  }

  predicate EndsOutside(prefix: string) {
    !After(Outside, prefix).Inside?
  }

  lemma {:induction false} BodyMasked(s: string)
    ensures After(Inside('\''), Doubled(s)) == Inside('\'') && Masked(Inside('\''), Doubled(s)) == ""
  {
    if s != "" {
      var head := if s[0] == '\'' then "''" else [s[0]];
      MaskedConcat(Inside('\''), head, Doubled(s[1..]));
      assert head[1..] == (if s[0] == '\'' then "'" else "");
      BodyMasked(s[1..]);
    }
  }

  /** From inside a single-quoted literal, a doubled body and a closing quote show nothing but
      the quote, owed to whatever comes next. */
  lemma TailMasked(s: string, suffix: string)
    requires suffix == "" || suffix[0] != '\''
    ensures var tail := Doubled(s) + ['\''] + suffix;
            Masked(Inside('\''), tail) + Flush(After(Inside('\''), tail)) == "'" + Redact(suffix)
  {
    hide After, Masked, Doubled;
    var m := Inside('\'');
    BodyMasked(s);
    MaskedConcat(m, Doubled(s) + ['\''], suffix);
    MaskedConcat(m, Doubled(s), ['\'']);
    MaskedCons(m, '\'', "");
    NothingMasked(Closing('\''));
    assert ['\''] + "" == ['\''];
    var tail := Doubled(s) + ['\''] + suffix;
    assert Masked(m, tail) == Masked(Closing('\''), suffix) && After(m, tail) == After(Closing('\''), suffix);
    if suffix != "" {
      assert suffix == [suffix[0]] + suffix[1..];
      assert Shown(Closing('\''), suffix[0]) == "'" + Shown(Outside, suffix[0]);
      MaskedCons(Closing('\''), suffix[0], suffix[1..]);
      MaskedCons(Outside, suffix[0], suffix[1..]);
    } else {
      NothingMasked(Outside);
    }
  }

  lemma MaskedCons(m: Mode, c: char, s: string)
    ensures After(m, [c] + s) == After(Next(m, c), s)
    ensures Masked(m, [c] + s) == Shown(m, c) + Masked(Next(m, c), s)
  {
    assert ([c] + s)[1..] == s;
  }

  lemma NothingMasked(m: Mode)
    ensures After(m, "") == m && Masked(m, "") == ""
  {
  }

  /** What redaction makes of a quoted value, whatever the value is: after a prefix that ends
      outside every literal, the value becomes '***' - except directly after a closing single
      quote, where the value's own opening quote turns that quote into an escape and the two
      literals are masked as one. */
  lemma RedactQuoted(prefix: string, s: string, suffix: string)
    requires EndsOutside(prefix) && (suffix == "" || suffix[0] != '\'')
    ensures Redact(prefix + Quote(s) + suffix) ==
              Redact(prefix) + (if After(Outside, prefix) == Closing('\'') then "" else "'***'") + Redact(suffix)
  {
    hide After, Masked, Doubled, StripControl;
    var v, m := StripControl(s), After(Outside, prefix);
    var tail := Doubled(v) + ['\''] + suffix;
    assert prefix + Quote(s) + suffix == prefix + (['\''] + tail);
    MaskedConcat(Outside, prefix, ['\''] + tail);
    MaskedCons(m, '\'', tail);
    TailMasked(v, suffix);
    var shown := Shown(m, '\'');
    assert shown + "'" == Flush(m) + (if m == Closing('\'') then "" else "'***'");
    Regroup(Masked(Outside, prefix), shown, Masked(Inside('\''), tail), Flush(After(Inside('\''), tail)),
            Redact(suffix), Flush(m), if m == Closing('\'') then "" else "'***'");
  }

  lemma Regroup(head: string, shown: string, body: string, rest: string, suffix: string, owed: string, mask: string)
    requires body + rest == "'" + suffix && shown + "'" == owed + mask
    ensures head + (shown + body) + rest == head + owed + mask + suffix
  {
    assert head + (shown + body) + rest == head + (shown + (body + rest));
    assert shown + ("'" + suffix) == (shown + "'") + suffix;
    assert head + ((owed + mask) + suffix) == head + owed + mask + suffix;
  }

  /** The masked form keeps the three parts apart if and only if the prefix does not end in a
      single quote. */
  lemma RedactQuotedExactly(prefix: string, s: string, suffix: string)
    requires EndsOutside(prefix) && (suffix == "" || suffix[0] != '\'')
    ensures Redact(prefix + Quote(s) + suffix) == Redact(prefix) + "'***'" + Redact(suffix) <==>
              prefix == "" || prefix[|prefix| - 1] != '\''
  {
    hide Masked, After, Quote, Redact;
    RedactQuoted(prefix, s, suffix);
    NothingMasked(Outside);
    assert |Redact(prefix) + "" + Redact(suffix)| < |Redact(prefix) + "'***'" + Redact(suffix)|;
    if prefix != "" {
      var n := |prefix| - 1;
      assert prefix[..n + 1] == prefix;
      MaskedNext(prefix, n);
    }
  }

  /** Error snippets are independent of every quoted value. */
  function Snippet(q: string): (text: string) {
    var redacted := Redact(q);
    if |redacted| <= 80 then redacted else redacted[..80] + "..."
  }

  /** A snippet is the masked statement, cut after 80 bytes. */
  lemma SnippetExactly(q: string)
    ensures |Redact(q)| <= 80 ==> Snippet(q) == Redact(q)
    ensures |Redact(q)| > 80 ==> |Snippet(q)| == 83 && Snippet(q)[..80] == Redact(q)[..80] && Snippet(q)[80..] == "..."
  {
  }

  lemma SnippetLeaksNothing(prefix: string, s: string, t: string, suffix: string)
    requires EndsOutside(prefix) && (suffix == "" || suffix[0] != '\'')
    ensures Snippet(prefix + Quote(s) + suffix) == Snippet(prefix + Quote(t) + suffix)
  {
    RedactQuoted(prefix, s, suffix);
    RedactQuoted(prefix, t, suffix);
  }
}

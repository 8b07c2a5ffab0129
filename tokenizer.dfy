/**
 * The line tokenizer of the `.cfg` parser (`config_line_split`).
 *
 * A line is read one character at a time. A double quote toggles the
 * "inside a quoted span" flag and is dropped; a space outside a quoted span
 * ends the pending token; every other character (a space inside quotes
 * included) joins the pending token. Empty tokens are never emitted, and an
 * unterminated quote is no error: the flag simply stays set.
 */
module Tokenizer {

  /** What the scanner holds after a prefix of the line: the quote flag,
      the pending token and the tokens emitted so far. */
  datatype ScanState = ScanState(inTextBlock: bool, part: string, parts: seq<string>)

  const Initial := ScanState(false, "", [])

  /** The tokens emitted so far, with the pending token if it is non-empty. */
  function Flush(st: ScanState): seq<string>
  {
    if |st.part| != 0 then st.parts + [st.part] else st.parts
  }

  /** One character of the scan. */
  function Step(st: ScanState, c: char): ScanState
  {
    if c == '"' then st.(inTextBlock := !st.inTextBlock)
    else if c == ' ' && !st.inTextBlock then st.(part := "", parts := Flush(st))
    else st.(part := st.part + [c])
  }

  /** The scan of `s` from state `st`, left to right. */
  function Run(st: ScanState, s: string): ScanState
  {
    if |s| == 0 then st else Step(Run(st, s[..|s| - 1]), s[|s| - 1])
  }

  /** The token sequence of a line. */
  function Tokens(line: string): seq<string>
  {
    Flush(Run(Initial, line))
  }

  /** `config_line_split`: the character loop, proved to compute `Tokens`. */
  method ConfigLineSplit(line: string) returns (parts: seq<string>)
    ensures parts == Tokens(line)
    ensures forall k :: 0 <= k < |parts| ==> |parts[k]| > 0 && '"' !in parts[k]
  {
    parts := [];
    var inTextBlock := false;
    var part := "";
    for i := 0 to |line|
      invariant Run(Initial, line[..i]) == ScanState(inTextBlock, part, parts)
    {
      var c := line[i];
      if c == '"' {
        inTextBlock := !inTextBlock;
      } else if c == ' ' && !inTextBlock {
        if |part| != 0 {
          parts := parts + [part];
        }
        part := "";
      } else {
        part := part + [c];
      }
      assert line[..i + 1][..i] == line[..i];
    }
    assert line[..|line|] == line;
    if |part| != 0 {
      parts := parts + [part];
    }
    TokensAreClean(line);
  }

  // ---------------------------------------------------------------------
  // An independent description: which characters of the line survive.

  function QuoteCount(s: string): nat
  {
    if |s| == 0 then 0 else QuoteCount(s[..|s| - 1]) + (if s[|s| - 1] == '"' then 1 else 0)
  }

  /** After the prefix `s`, the scan is inside a quoted span. */
  predicate Quoted(s: string)
  {
    QuoteCount(s) % 2 == 1
  }

  /** The line with every `"` removed and every space outside a quoted span removed. */
  function Kept(s: string): string
  {
    if |s| == 0 then ""
    else
      var p, c := s[..|s| - 1], s[|s| - 1];
      Kept(p) + (if c == '"' || (c == ' ' && !Quoted(p)) then "" else [c])
  }

  function Concat(ts: seq<string>): string
  {
    if |ts| == 0 then "" else Concat(ts[..|ts| - 1]) + ts[|ts| - 1]
  }

  lemma {:induction false} ConcatSnoc(ts: seq<string>, t: string)
    ensures Concat(ts + [t]) == Concat(ts) + t
  {
    assert (ts + [t])[..|ts|] == ts;
  }

  lemma {:induction false} ConcatOfNonEmptyIsEmpty(ts: seq<string>)
    requires forall k :: 0 <= k < |ts| ==> |ts[k]| > 0
    requires Concat(ts) == ""
    ensures ts == []
  {
  }

  /** The scan's flag is the parity of the quotes read so far. */
  lemma {:induction false} FlagIsQuoteParity(s: string)
    ensures Run(Initial, s).inTextBlock == Quoted(s)
  {
    if |s| > 0 {
      FlagIsQuoteParity(s[..|s| - 1]);
    }
  }

  /** The pending token holds no quote, and every emitted token is non-empty
      and holds no quote. */
  lemma {:induction false} ScanIsClean(s: string)
    ensures '"' !in Run(Initial, s).part
    ensures forall k :: 0 <= k < |Run(Initial, s).parts| ==>
              |Run(Initial, s).parts[k]| > 0 && '"' !in Run(Initial, s).parts[k]
  {
    if |s| > 0 {
      ScanIsClean(s[..|s| - 1]);
    }
  }

  /** The emitted tokens followed by the pending one spell out the kept characters. */
  lemma {:induction false} ScanSpellsKept(s: string)
    ensures Concat(Run(Initial, s).parts) + Run(Initial, s).part == Kept(s)
  {
    if |s| > 0 {
      var p, c := s[..|s| - 1], s[|s| - 1];
      ScanSpellsKept(p);
      FlagIsQuoteParity(p);
      var st := Run(Initial, p);
      assert Run(Initial, s) == Step(st, c);
      if c == '"' {
        assert Kept(s) == Kept(p);
      } else if c == ' ' && !st.inTextBlock {
        assert Kept(s) == Kept(p);
        if |st.part| != 0 {
          ConcatSnoc(st.parts, st.part);
        }
      } else {
        assert Kept(s) == Kept(p) + [c];
        assert Concat(st.parts) + (st.part + [c]) == Concat(st.parts) + st.part + [c];
      }
    }
  }

  /** Every token is non-empty and holds no double quote. */
  lemma {:induction false} TokensAreClean(line: string)
    ensures forall k :: 0 <= k < |Tokens(line)| ==> |Tokens(line)[k]| > 0 && '"' !in Tokens(line)[k]
  {
    ScanIsClean(line);
  }

  /** The tokens, concatenated in order, are exactly the kept characters:
      quotes vanish, spaces inside quotes stay, spaces outside quotes go. */
  lemma {:induction false} TokensSpellKept(line: string)
    ensures Concat(Tokens(line)) == Kept(line)
  {
    ScanSpellsKept(line);
    var st := Run(Initial, line);
    ConcatSnoc(st.parts, st.part);
  }

  lemma {:induction false} BlankKeepsNothing(line: string)
    requires forall i :: 0 <= i < |line| ==> line[i] == ' '
    ensures QuoteCount(line) == 0 && Kept(line) == ""
  {
    if |line| > 0 {
      BlankKeepsNothing(line[..|line| - 1]);
    }
  }

  /** An empty or all-space line has no tokens. */
  lemma {:induction false} BlankLineHasNoTokens(line: string)
    requires forall i :: 0 <= i < |line| ==> line[i] == ' '
    ensures Tokens(line) == []
  {
    BlankKeepsNothing(line);
    TokensSpellKept(line);
    TokensAreClean(line);
    ConcatOfNonEmptyIsEmpty(Tokens(line));
  }

  // ---------------------------------------------------------------------
  // Writing tokens back out as a line.

  /** Tokens separated by single spaces. */
  function Unsplit(ts: seq<string>): string
  {
    if |ts| == 0 then ""
    else if |ts| == 1 then ts[0]
    else Unsplit(ts[..|ts| - 1]) + " " + ts[|ts| - 1]
  }

  /** A token written as-is (`quoted` false) or wrapped in double quotes. */
  function Render(t: string, quoted: bool): string
  {
    if quoted then "\"" + t + "\"" else t
  }

  function RenderAll(ts: seq<string>, quoted: bool): seq<string>
  {
    seq(|ts|, k requires 0 <= k < |ts| => Render(ts[k], quoted))
  }

  /** A token that survives being written out: non-empty, no quote, and
      no space unless it is written inside quotes. */
  predicate Renderable(t: string, quoted: bool)
  {
    |t| > 0 && '"' !in t && (quoted || ' ' !in t)
  }

  lemma {:induction false} RunAppend(st: ScanState, a: string, b: string)
    ensures Run(st, a + b) == Run(Run(st, a), b)
  {
    if |b| > 0 {
      RunAppend(st, a, b[..|b| - 1]);
      assert (a + b)[..|a + b| - 1] == a + b[..|b| - 1];
    } else {
      assert a + b == a;
    }
  }

  /** Characters that are neither quotes nor token-ending spaces just extend the pending token. */
  lemma {:induction false} RunLiteral(st: ScanState, t: string)
    requires '"' !in t && (st.inTextBlock || ' ' !in t)
    ensures Run(st, t) == st.(part := st.part + t)
  {
    if |t| > 0 {
      var p := t[..|t| - 1];
      RunLiteral(st, p);
      assert p + [t[|t| - 1]] == t;
    }
  }

  lemma {:induction false} RunRender(parts: seq<string>, t: string, quoted: bool)
    requires Renderable(t, quoted)
    ensures Run(ScanState(false, "", parts), Render(t, quoted)) == ScanState(false, t, parts)
  {
    var st := ScanState(false, "", parts);
    if quoted {
      RunAppend(st, "\"" + t, "\"");
      RunAppend(st, "\"", t);
      RunLiteral(st.(inTextBlock := true), t);
      assert Run(st, "\"") == st.(inTextBlock := true);
    } else {
      RunLiteral(st, t);
    }
  }

  lemma {:induction false} RenderAllPrefix(ts: seq<string>, quoted: bool, m: nat)
    requires m <= |ts|
    ensures RenderAll(ts[..m], quoted) == RenderAll(ts, quoted)[..m]
  {
  }

  lemma {:induction false} RunOne(st: ScanState, c: char)
    ensures Run(st, [c]) == Step(st, c)
  {
    assert [c][..0] == [];
  }

  lemma {:induction false} RunUnsplit(ts: seq<string>, quoted: bool)
    requires |ts| > 0
    requires forall k :: 0 <= k < |ts| ==> Renderable(ts[k], quoted)
    ensures Run(Initial, Unsplit(RenderAll(ts, quoted))) == ScanState(false, ts[|ts| - 1], ts[..|ts| - 1])
  {
    var n := |ts|;
    var ws := RenderAll(ts, quoted);
    if n == 1 {
      RunRender([], ts[0], quoted);
    } else {
      var front := ts[..n - 1];
      RunUnsplit(front, quoted);
      RenderAllPrefix(ts, quoted, n - 1);
      var a := Unsplit(ws[..n - 1]);
      var prev := Run(Initial, a);
      assert prev == ScanState(false, front[n - 2], front[..n - 2]);
      assert front[..n - 2] + [front[n - 2]] == front;
      var mid := ScanState(false, "", front);
      calc {
        Run(Initial, Unsplit(ws));
        { assert Unsplit(ws) == a + " " + ws[n - 1]; }
        Run(Initial, a + " " + ws[n - 1]);
        { RunAppend(Initial, a + " ", ws[n - 1]); }
        Run(Run(Initial, a + " "), ws[n - 1]);
        { RunAppend(Initial, a, " "); RunOne(prev, ' '); }
        Run(mid, Render(ts[n - 1], quoted));
        { RunRender(front, ts[n - 1], quoted); }
        ScanState(false, ts[n - 1], front);
      }
    }
  }

  /** Writing clean tokens out, separated by spaces and each either bare or
      wrapped in quotes, and tokenizing the result gives the tokens back. */
  lemma {:induction false} TokenizeUnsplit(ts: seq<string>, quoted: bool)
    requires forall k :: 0 <= k < |ts| ==> Renderable(ts[k], quoted)
    ensures Tokens(Unsplit(RenderAll(ts, quoted))) == ts
  {
    if |ts| > 0 {
      RunUnsplit(ts, quoted);
    }
  }

  /** Re-quoting every token of any line and tokenizing again reproduces the tokens. */
  lemma {:induction false} RequoteIsStable(line: string)
    ensures Tokens(Unsplit(RenderAll(Tokens(line), true))) == Tokens(line)
  {
    TokensAreClean(line);
    TokenizeUnsplit(Tokens(line), true);
  }

  /** Rejoining the tokens with single spaces and tokenizing again reproduces
      them, provided no token holds a space (quotes are lost on the way). */
  lemma {:induction false} RejoinIsStable(line: string)
    requires forall k :: 0 <= k < |Tokens(line)| ==> ' ' !in Tokens(line)[k]
    ensures Tokens(Unsplit(Tokens(line))) == Tokens(line)
  {
    TokensAreClean(line);
    TokenizeUnsplit(Tokens(line), false);
    assert RenderAll(Tokens(line), false) == Tokens(line);
  }
}

/** The ANSI projection of `src/tfr/ansi.py`: a scanner of control tokens and visible
    characters, and cuts of visible text that keep the control tokens. */
module Ansi {
  import opened Wrappers

  // Control sequences and control strings follow ECMA-48 sections 5.4 and 5.6, as loosely as
  // the program does: any character may stand inside a CSI sequence, and BEL also ends a
  // control string.

  const ESC: char := '\U{1B}'
  const BEL: char := '\U{07}'
  const CSI: char := '\U{9B}'
  const ST: char := '\U{9C}'

  /** What one token is, wherever it stands. */
  datatype Piece = Piece(text: string, control: bool)

  datatype AnsiToken = AnsiToken(text: string, start: nat, end: nat, control: bool)

  // ---------------------------------------------------------------- specification

  predicate FinalByte(c: char) { 0x40 <= c as int <= 0x7E }

  predicate StringIntroducer(c: char) { c in "]PX^_" }

  predicate C1StringIntroducer(c: char) { c in "\U{90}\U{98}\U{9D}\U{9E}\U{9F}" }

  /** A character that starts a control token; every other character is visible. */
  predicate Introducer(c: char) { c == ESC || c == CSI || C1StringIntroducer(c) || c == ST }

  /** How much of `s` belongs to a CSI sequence whose introducer stands just before it. */
  function CsiLength(s: string): (n: nat)
    ensures n <= |s|
  {
    if s == [] then 0
    else if FinalByte(s[0]) then 1
    else 1 + CsiLength(s[1..])
  }

  /** How much of `s` belongs to a control string whose introducer stands just before it. */
  function StringLength(s: string): (n: nat)
    ensures n <= |s|
  {
    if s == [] then 0
    else if s[0] == BEL || s[0] == ST then 1
    else if s[0] == ESC && |s| > 1 && s[1] == '\\' then 2
    else 1 + StringLength(s[1..])
  }

  /** The length of the control token at the head of `s`; 0 when the head is visible. */
  function ControlLength(s: string): (n: nat)
    requires s != []
    ensures n <= |s|
    ensures n == 0 <==> !Introducer(s[0])
  {
    if s[0] == ESC then
      if |s| == 1 then 1
      else if s[1] == '[' then 2 + CsiLength(s[2..])
      else if StringIntroducer(s[1]) then 2 + StringLength(s[2..])
      else 2
    else if s[0] == CSI then 1 + CsiLength(s[1..])
    else if C1StringIntroducer(s[0]) then 1 + StringLength(s[1..])
    else if s[0] == ST then 1
    else 0
  }

  function Head(s: string): (p: Piece)
    requires s != []
    ensures 1 <= |p.text| <= |s| && p.text == s[..|p.text|]
    ensures !p.control ==> |p.text| == 1
  {
    var n := ControlLength(s);
    if n == 0 then Piece(s[..1], false) else Piece(s[..n], true)
  }

  /** The tokens of `s`, left to right. */
  function Pieces(s: string): seq<Piece> {
    if s == [] then [] else [Head(s)] + Pieces(s[|Head(s).text|..])
  }

  function Join(ps: seq<Piece>): string {
    if ps == [] then "" else ps[0].text + Join(ps[1..])
  }

  function Visible(ps: seq<Piece>): string {
    if ps == [] then "" else (if ps[0].control then "" else ps[0].text) + Visible(ps[1..])
  }

  function Controls(ps: seq<Piece>): seq<Piece> {
    if ps == [] then [] else (if ps[0].control then [ps[0]] else []) + Controls(ps[1..])
  }

  /** The plain text of `s`. */
  function Plain(s: string): string { Visible(Pieces(s)) }

  /** `q` is `p` with some tokens left out. */
  predicate Selection(q: seq<Piece>, p: seq<Piece>) {
    if q == [] then true
    else if p == [] then false
    else (q[0] == p[0] && Selection(q[1..], p[1..])) || Selection(q, p[1..])
  }

  /** The tokens that survive hiding the first `n` visible characters. */
  function DropVisible(ps: seq<Piece>, n: nat): seq<Piece> {
    if ps == [] then []
    else if ps[0].control then [ps[0]] + DropVisible(ps[1..], n)
    else if n == 0 then [ps[0]] + DropVisible(ps[1..], 0)
    else DropVisible(ps[1..], n - 1)
  }

  /** The tokens that survive keeping only visible characters `start` up to `end`:
      control tokens stay as long as a kept character may still follow. */
  function SliceVisible(ps: seq<Piece>, start: nat, end: nat): seq<Piece> {
    if ps == [] then []
    else if ps[0].control then
      (if end > 0 then [ps[0]] else []) + SliceVisible(ps[1..], start, end)
    else
      (if start == 0 && end > 0 then [ps[0]] else []) +
      SliceVisible(ps[1..], if start == 0 then 0 else start - 1, if end == 0 then 0 else end - 1)
  }

  // ------------------------------------------------- tokens are self-delimiting

  lemma {:induction false} CsiSelfDelimiting(s: string, t: string)
    requires CsiLength(s) < |s|
    ensures CsiLength(s[..CsiLength(s)] + t) == CsiLength(s)
  {
    if !FinalByte(s[0]) {
      CsiSelfDelimiting(s[1..], t);
      var n := CsiLength(s);
      assert (s[..n] + t)[1..] == s[1..][..n - 1] + t;
    }
  }

  lemma {:induction false} StringSelfDelimiting(s: string, t: string)
    requires StringLength(s) < |s|
    ensures StringLength(s[..StringLength(s)] + t) == StringLength(s)
  {
    var n := StringLength(s);
    if s[0] == BEL || s[0] == ST {
    } else if s[0] == ESC && s[1] == '\\' {
      assert (s[..n] + t)[..2] == s[..2];
    } else {
      StringSelfDelimiting(s[1..], t);
      assert (s[..n] + t)[1..] == s[1..][..n - 1] + t;
      assert n >= 2 && (s[..n] + t)[1] == s[1];
    }
  }

  lemma {:induction false} ControlSelfDelimiting(s: string, t: string)
    requires s != [] && 0 < ControlLength(s) < |s|
    ensures ControlLength(s[..ControlLength(s)] + t) == ControlLength(s)
  {
    var n := ControlLength(s);
    var u := s[..n] + t;
    assert u[0] == s[0];
    if s[0] == ESC {
      assert n >= 2 && u[1] == s[1];
      assert u[2..] == s[2..][..n - 2] + t;
      if s[1] == '[' {
        CsiSelfDelimiting(s[2..], t);
      } else if StringIntroducer(s[1]) {
        StringSelfDelimiting(s[2..], t);
      }
    } else {
      assert u[1..] == s[1..][..n - 1] + t;
      if s[0] == CSI {
        CsiSelfDelimiting(s[1..], t);
      } else if C1StringIntroducer(s[0]) {
        StringSelfDelimiting(s[1..], t);
      }
    }
  }

  /** A token that does not run to the end of the text is the same token
      whatever follows it. */
  lemma {:induction false} HeadSelfDelimiting(s: string, t: string)
    requires s != []
    ensures var p := Head(s); |p.text| < |s| || t == "" ==> Head(p.text + t) == p
  {
    var p := Head(s);
    var n := |p.text|;
    var u := p.text + t;
    assert u[..n] == p.text;
    if n == |s| {
      assert t == "" ==> u == s;
    } else if p.control {
      ControlSelfDelimiting(s, t);
    }
  }

  lemma {:induction false} JoinPieces(s: string)
    ensures Join(Pieces(s)) == s
  {
    if s != [] {
      JoinPieces(s[|Head(s).text|..]);
    }
  }

  /** Main result: whatever tokens of a text are left out, scanning what remains finds
      exactly the tokens that were kept. */
  lemma {:induction false} SelectionScansBack(s: string, q: seq<Piece>)
    requires Selection(q, Pieces(s))
    ensures Pieces(Join(q)) == q
    decreases |s|
  {
    if q != [] {
      var p := Head(s);
      var rest := s[|p.text|..];
      assert Pieces(s)[1..] == Pieces(rest);
      if q[0] == p && Selection(q[1..], Pieces(rest)) {
        SelectionScansBack(rest, q[1..]);
        var t := Join(q[1..]);
        if rest == [] {
          assert q[1..] == [];
        }
        HeadSelfDelimiting(s, t);
        assert (p.text + t)[|p.text|..] == t;
        assert q == [p] + q[1..];
      } else {
        SelectionScansBack(rest, q);
      }
    }
  }

  /** The tokens at the positions that are kept. */
  function Chosen(ps: seq<Piece>, keep: seq<bool>): seq<Piece>
    requires |keep| == |ps|
  {
    if ps == [] then [] else (if keep[0] then [ps[0]] else []) + Chosen(ps[1..], keep[1..])
  }

  lemma {:induction false} ChosenSelects(ps: seq<Piece>, keep: seq<bool>)
    requires |keep| == |ps|
    ensures Selection(Chosen(ps, keep), ps)
  {
    if ps != [] {
      ChosenSelects(ps[1..], keep[1..]);
      var rest := Chosen(ps[1..], keep[1..]);
      if keep[0] {
        assert ([ps[0]] + rest)[1..] == rest;
      } else {
        assert [] + rest == rest;
      }
    }
  }

  /** The same by position: any choice of tokens, joined, scans back into exactly these. */
  lemma {:induction false} AnyChoiceScansBack(s: string, keep: seq<bool>)
    requires |keep| == |Pieces(s)|
    ensures Pieces(Join(Chosen(Pieces(s), keep))) == Chosen(Pieces(s), keep)
  {
    ChosenSelects(Pieces(s), keep);
    SelectionScansBack(s, Chosen(Pieces(s), keep));
  }

  // ------------------------------------------------- where control sequences begin and end

  /** What `s` is when its first token is `head`: that piece, and then what follows it. */
  ghost predicate Begins(s: string, head: string, control: bool, rest: string) {
    && Pieces(s) == [Piece(head, control)] + Pieces(rest)
    && Plain(s) == (if control then "" else head) + Plain(rest)
  }

  lemma {:induction false} BeginsWith(s: string, head: string, rest: string)
    requires s == head + rest && head != "" && Head(s).text == head
    ensures Begins(s, head, Head(s).control, rest)
  {
    assert s[|head|..] == rest;
    var ps := Pieces(rest);
    assert ([Head(s)] + ps)[1..] == ps;
  }

  lemma {:induction false} CsiEnds(body: string, f: char, t: string)
    requires (forall i :: 0 <= i < |body| ==> !(0x40 <= body[i] as int <= 0x7E)) && 0x40 <= f as int <= 0x7E
    ensures CsiLength(body + [f] + t) == |body| + 1
  {
    var s := body + [f] + t;
    if body != "" {
      CsiEnds(body[1..], f, t);
      assert s[1..] == body[1..] + [f] + t;
    }
  }

  lemma {:induction false} CsiRunsOn(body: string)
    requires forall i :: 0 <= i < |body| ==> !(0x40 <= body[i] as int <= 0x7E)
    ensures CsiLength(body) == |body|
  {
    if body != "" {
      CsiRunsOn(body[1..]);
    }
  }

  /** A CSI sequence, introduced by ESC `[` or 0x9B, runs up to and including the first
      character from 0x40 to 0x7E, and hides exactly that. */
  lemma {:induction false} CsiIsHidden(body: string, f: char, t: string)
    requires (forall i :: 0 <= i < |body| ==> !(0x40 <= body[i] as int <= 0x7E)) && 0x40 <= f as int <= 0x7E
    ensures Begins("\U{1B}[" + body + [f] + t, "\U{1B}[" + body + [f], true, t)
    ensures Begins("\U{9B}" + body + [f] + t, "\U{9B}" + body + [f], true, t)
  {
    CsiEnds(body, f, t);
    var x, y := "\U{1B}[" + body + [f], "\U{9B}" + body + [f];
    assert (x + t)[2..] == body + [f] + t && (y + t)[1..] == body + [f] + t;
    assert (x + t)[..|x|] == x && (y + t)[..|y|] == y;
    BeginsWith(x + t, x, t);
    BeginsWith(y + t, y, t);
  }

  /** Without such a character it hides the rest of the text. */
  lemma {:induction false} OpenCsiHidesRest(body: string)
    requires forall i :: 0 <= i < |body| ==> !(0x40 <= body[i] as int <= 0x7E)
    ensures Plain("\U{1B}[" + body) == "" && Plain("\U{9B}" + body) == ""
  {
    CsiRunsOn(body);
    var x, y := "\U{1B}[" + body, "\U{9B}" + body;
    assert x[2..] == body && y[1..] == body && x[..|x|] == x && y[..|y|] == y;
    BeginsWith(x, x, "");
    BeginsWith(y, y, "");
  }

  /** What ends a control string: BEL, 0x9C, or ESC `\\`. */
  predicate Terminator(s: string) { s == "\U{07}" || s == "\U{9C}" || s == "\U{1B}\\" }

  /** No terminator begins in the text. */
  predicate Unterminated(body: string) {
    && '\U{07}' !in body && '\U{9C}' !in body
    && forall i :: 0 <= i < |body| - 1 && body[i] == '\U{1B}' ==> body[i + 1] != '\\'
  }

  lemma {:induction false} StringEnds(body: string, terminator: string, t: string)
    requires Unterminated(body) && Terminator(terminator)
    ensures StringLength(body + terminator + t) == |body| + |terminator|
  {
    var s := body + terminator + t;
    if body != "" {
      StringEnds(body[1..], terminator, t);
      assert s[1..] == body[1..] + terminator + t;
      assert |body| > 1 ==> s[1] == body[1];
      assert |body| == 1 ==> s[1] == terminator[0];
    }
  }

  lemma {:induction false} StringRunsOn(body: string)
    requires Unterminated(body)
    ensures StringLength(body) == |body|
  {
    if body != "" {
      StringRunsOn(body[1..]);
    }
  }

  /** A control string, introduced by ESC and one of `]PX^_` or by one of their C1 forms, runs
      up to and including the first terminator, and hides exactly that. */
  lemma {:induction false} StringIsHidden(introducer: char, c1: char, body: string, terminator: string, t: string)
    requires introducer in "]PX^_" && c1 in "\U{90}\U{98}\U{9D}\U{9E}\U{9F}"
    requires Unterminated(body) && Terminator(terminator)
    ensures Begins("\U{1B}" + [introducer] + body + terminator + t, "\U{1B}" + [introducer] + body + terminator, true, t)
    ensures Begins([c1] + body + terminator + t, [c1] + body + terminator, true, t)
  {
    EscStringIsHidden(introducer, body, terminator, t);
    C1StringIsHidden(c1, body, terminator, t);
  }

  lemma {:induction false} EscStringIsHidden(introducer: char, body: string, terminator: string, t: string)
    requires introducer in "]PX^_" && Unterminated(body) && Terminator(terminator)
    ensures Begins("\U{1B}" + [introducer] + body + terminator + t, "\U{1B}" + [introducer] + body + terminator, true, t)
  {
    StringEnds(body, terminator, t);
    hide Unterminated, Terminator, StringLength, CsiLength, C1StringIntroducer;
    var x := "\U{1B}" + [introducer] + body + terminator;
    assert (x + t)[2..] == body + terminator + t && (x + t)[..|x|] == x;
    BeginsWith(x + t, x, t);
  }

  lemma {:induction false} C1StringIsHidden(c1: char, body: string, terminator: string, t: string)
    requires c1 in "\U{90}\U{98}\U{9D}\U{9E}\U{9F}" && Unterminated(body) && Terminator(terminator)
    ensures Begins([c1] + body + terminator + t, [c1] + body + terminator, true, t)
  {
    StringEnds(body, terminator, t);
    hide Unterminated, Terminator, StringLength, CsiLength, StringIntroducer;
    var y := [c1] + body + terminator;
    assert (y + t)[1..] == body + terminator + t && (y + t)[..|y|] == y;
    BeginsWith(y + t, y, t);
  }

  /** Without a terminator it hides the rest of the text. */
  lemma {:induction false} OpenStringHidesRest(introducer: char, c1: char, body: string)
    requires introducer in "]PX^_" && c1 in "\U{90}\U{98}\U{9D}\U{9E}\U{9F}" && Unterminated(body)
    ensures Plain("\U{1B}" + [introducer] + body) == "" && Plain([c1] + body) == ""
  {
    StringRunsOn(body);
    hide Unterminated, StringLength, CsiLength;
    var x, y := "\U{1B}" + [introducer] + body, [c1] + body;
    assert x[2..] == body && y[1..] == body && x[..|x|] == x && y[..|y|] == y;
    BeginsWith(x, x, "");
    BeginsWith(y, y, "");
  }

  /** Any other escape hides two characters, ESC at the end itself, 0x9C itself; every other
      character is visible. */
  lemma {:induction false} OtherCharacters(c: char, t: string)
    ensures c != '[' && c !in "]PX^_" ==> Begins("\U{1B}" + [c] + t, "\U{1B}" + [c], true, t)
    ensures Plain("\U{1B}") == "" && Begins("\U{9C}" + t, "\U{9C}", true, t)
    ensures c !in "\U{1B}\U{9B}\U{90}\U{98}\U{9D}\U{9E}\U{9F}\U{9C}" ==> Begins([c] + t, [c], false, t)
  {
    var x := "\U{1B}" + [c];
    assert (x + t)[..2] == x && ("\U{9C}" + t)[..1] == "\U{9C}" && ([c] + t)[..1] == [c];
    if c != '[' && c !in "]PX^_" {
      BeginsWith(x + t, x, t);
    }
    BeginsWith("\U{1B}", "\U{1B}", "");
    BeginsWith("\U{9C}" + t, "\U{9C}", t);
    if c !in "\U{1B}\U{9B}\U{90}\U{98}\U{9D}\U{9E}\U{9F}\U{9C}" {
      BeginsWith([c] + t, [c], t);
    }
  }

  // ------------------------------------------------------- cutting visible text

  lemma {:induction false} DropVisibleSelects(ps: seq<Piece>, n: nat)
    ensures Selection(DropVisible(ps, n), ps)
    ensures Controls(DropVisible(ps, n)) == Controls(ps)
  {
    if ps != [] {
      var m := if ps[0].control || n == 0 then n else n - 1;
      DropVisibleSelects(ps[1..], m);
      var r := DropVisible(ps[1..], m);
      if ps[0].control || n == 0 {
        assert DropVisible(ps, n) == [ps[0]] + r;
        assert ([ps[0]] + r)[1..] == r;
      }
    }
  }

  lemma {:induction false} DropVisiblePlain(ps: seq<Piece>, n: nat)
    requires forall i :: 0 <= i < |ps| && !ps[i].control ==> |ps[i].text| == 1
    requires n <= |Visible(ps)|
    ensures Visible(DropVisible(ps, n)) == Visible(ps)[n..]
  {
    if ps != [] {
      var m := if ps[0].control || n == 0 then n else n - 1;
      DropVisiblePlain(ps[1..], m);
      var r := DropVisible(ps[1..], m);
      if ps[0].control || n == 0 {
        assert ([ps[0]] + r)[1..] == r;
      }
    }
  }

  lemma {:induction false} SliceVisibleSelects(ps: seq<Piece>, start: nat, end: nat)
    ensures Selection(SliceVisible(ps, start, end), ps)
  {
    if ps != [] {
      var a := if ps[0].control || start == 0 then start else start - 1;
      var b := if ps[0].control || end == 0 then end else end - 1;
      SliceVisibleSelects(ps[1..], a, b);
      var r := SliceVisible(ps[1..], a, b);
      assert SliceVisible(ps, start, end) == r || SliceVisible(ps, start, end) == [ps[0]] + r;
      assert ([ps[0]] + r)[1..] == r;
    }
  }

  /** Which tokens hiding a prefix keeps, one by one: every control token, and each visible
      character with at least `n` visible ones before it. */
  lemma {:induction false} DropExtends(ps: seq<Piece>, p: Piece, n: nat)
    requires forall i :: 0 <= i < |ps| && !ps[i].control ==> |ps[i].text| == 1
    ensures DropVisible(ps + [p], n) ==
      if p.control || |Visible(ps)| >= n then DropVisible(ps, n) + [p] else DropVisible(ps, n)
  {
    if ps == [] {
      assert [p][1..] == [] && DropVisible([], n) == [];
    } else {
      var m := if ps[0].control || n == 0 then n else n - 1;
      assert (ps + [p])[1..] == ps[1..] + [p];
      DropExtends(ps[1..], p, m);
    }
  }

  /** Which tokens a slice keeps, one by one: a control token while fewer than `end` visible
      characters came before it, a visible character when `start` or more did besides. */
  lemma {:induction false} SliceExtends(ps: seq<Piece>, p: Piece, start: nat, end: nat)
    requires forall i :: 0 <= i < |ps| && !ps[i].control ==> |ps[i].text| == 1
    requires start <= end
    ensures SliceVisible(ps + [p], start, end) ==
      if |Visible(ps)| < end && (p.control || start <= |Visible(ps)|) then SliceVisible(ps, start, end) + [p]
      else SliceVisible(ps, start, end)
  {
    if ps == [] {
      assert [p][1..] == [] && SliceVisible([], start, end) == [];
      SliceVisibleCons(p, [], start, end);
      assert [] + [p] == [p];
    } else {
      hide SliceVisible, Visible;
      var q, rest := ps[0], ps[1..];
      var a := if q.control || start == 0 then start else start - 1;
      var b := if q.control || end == 0 then end else end - 1;
      assert ps == [q] + rest && ps + [p] == [q] + (rest + [p]);
      VisibleCons(q, rest);
      SliceVisibleCons(q, rest, start, end);
      SliceVisibleCons(q, rest + [p], start, end);
      SliceExtends(rest, p, a, b);
      var kept := if end > 0 && (q.control || start == 0) then [q] else [];
      var tail := SliceVisible(rest, a, b);
      assert kept + (tail + [p]) == (kept + tail) + [p];
    }
  }

  lemma {:induction false} VisibleCons(p: Piece, ps: seq<Piece>)
    ensures Visible([p] + ps) == (if p.control then "" else p.text) + Visible(ps)
  {
    assert ([p] + ps)[1..] == ps;
  }

  /** What of the first character a slice keeps, and where it continues in the rest. */
  lemma {:induction false} SliceOfMore(c: string, s: string, start: nat, end: nat)
    requires |c| == 1 && start <= end <= 1 + |s|
    ensures (c + s)[start..end] ==
      if end == 0 then "" else if start == 0 then c + s[..end - 1] else s[start - 1..end - 1]
  {
  }

  lemma {:induction false} SliceVisibleCons(p: Piece, ps: seq<Piece>, start: nat, end: nat)
    ensures var a := if p.control || start == 0 then start else start - 1;
      var b := if p.control || end == 0 then end else end - 1;
      SliceVisible([p] + ps, start, end) == (if end > 0 && (p.control || start == 0) then [p] else []) + SliceVisible(ps, a, b)
  {
    assert ([p] + ps)[1..] == ps;
  }

  /** Nothing visible is kept of an empty range. */
  lemma {:induction false} SliceVisibleNone(ps: seq<Piece>)
    ensures SliceVisible(ps, 0, 0) == []
  {
    if ps != [] {
      SliceVisibleNone(ps[1..]);
    }
  }

  lemma {:induction false} SliceVisiblePlain(ps: seq<Piece>, start: nat, end: nat)
    requires forall i :: 0 <= i < |ps| && !ps[i].control ==> |ps[i].text| == 1
    requires start <= end <= |Visible(ps)|
    ensures Visible(SliceVisible(ps, start, end)) == Visible(ps)[start..end]
    decreases |ps|, 1
  {
    if end == 0 {
      SliceVisibleNone(ps);
    } else if ps != [] {
      var p, rest := ps[0], ps[1..];
      assert ps == [p] + rest;
      SliceVisiblePlainCons(p, rest, start, end);
    }
  }

  lemma {:induction false} SliceVisiblePlainCons(p: Piece, ps: seq<Piece>, start: nat, end: nat)
    requires forall i :: 0 <= i < |ps| && !ps[i].control ==> |ps[i].text| == 1
    requires (p.control || |p.text| == 1) && end > 0 && start <= end <= |Visible([p] + ps)|
    ensures Visible(SliceVisible([p] + ps, start, end)) == Visible([p] + ps)[start..end]
    decreases |ps| + 1, 0
  {
    hide Visible, SliceVisible;
    VisibleCons(p, ps);
    SliceVisibleCons(p, ps, start, end);
    var a := if p.control || start == 0 then start else start - 1;
    var b := if p.control || end == 0 then end else end - 1;
    SliceVisiblePlain(ps, a, b);
    var r := SliceVisible(ps, a, b);
    VisibleCons(p, r);
    if !p.control {
      SliceOfMore(p.text, Visible(ps), start, end);
    }
    assert [] + r == r;
  }

  lemma {:induction false} VisiblePiecesAreCharacters(s: string)
    ensures forall i :: 0 <= i < |Pieces(s)| && !Pieces(s)[i].control ==>
      |Pieces(s)[i].text| == 1 && !Introducer(Pieces(s)[i].text[0])
  {
    if s != [] {
      VisiblePiecesAreCharacters(s[|Head(s).text|..]);
    }
  }

  /** Hiding a visible prefix and projecting again gives the rest of the plain text,
      with every control token still there in order. */
  lemma {:induction false} HiddenPrefixProjects(s: string, n: nat)
    requires n <= |Plain(s)|
    ensures Plain(Join(DropVisible(Pieces(s), n))) == Plain(s)[n..]
    ensures Controls(Pieces(Join(DropVisible(Pieces(s), n)))) == Controls(Pieces(s))
  {
    VisiblePiecesAreCharacters(s);
    DropVisibleSelects(Pieces(s), n);
    DropVisiblePlain(Pieces(s), n);
    SelectionScansBack(s, DropVisible(Pieces(s), n));
  }

  lemma {:induction false} SliceProjects(s: string, start: nat, end: nat)
    requires start <= end <= |Plain(s)|
    ensures Plain(Join(SliceVisible(Pieces(s), start, end))) == Plain(s)[start..end]
  {
    VisiblePiecesAreCharacters(s);
    SliceVisibleSelects(Pieces(s), start, end);
    SliceVisiblePlain(Pieces(s), start, end);
    SelectionScansBack(s, SliceVisible(Pieces(s), start, end));
  }

  lemma {:induction false} PlainOfVisibleText(s: string)
    requires forall c :: c in s ==> !Introducer(c)
    ensures Plain(s) == s
  {
    if s != [] {
      assert Head(s) == Piece(s[..1], false);
      PlainOfVisibleText(s[1..]);
    }
  }

  lemma {:induction false} PlainHasNoIntroducer(s: string)
    ensures forall c :: c in Plain(s) ==> !Introducer(c)
  {
    if s != [] {
      PlainHasNoIntroducer(s[|Head(s).text|..]);
    }
  }

  /** Stripping twice strips no more than stripping once. */
  lemma {:induction false} StripIdempotent(s: string)
    ensures Plain(Plain(s)) == Plain(s)
  {
    PlainHasNoIntroducer(s);
    PlainOfVisibleText(Plain(s));
  }

  // --------------------------------------------------------------- the program

  method TerminatedControlEnd(text: string, start: nat) returns (end: nat)
    requires start <= |text|
    ensures end == start + StringLength(text[start..])
  {
    var index := start;
    while index < |text|
      invariant start <= index <= |text|
      invariant start + StringLength(text[start..]) == index + StringLength(text[index..])
    {
      assert text[index..][1..] == text[index + 1..];
      if text[index] == BEL || text[index] == ST {
        return index + 1;
      }
      if text[index] == ESC && index + 1 < |text| && text[index + 1] == '\\' {
        return index + 2;
      }
      index := index + 1;
    }
    return |text|;
  }

  method CsiEnd(text: string, start: nat) returns (end: nat)
    requires start <= |text|
    ensures end == start + CsiLength(text[start..])
  {
    var index := start;
    while index < |text|
      invariant start <= index <= |text|
      invariant start + CsiLength(text[start..]) == index + CsiLength(text[index..])
    {
      assert text[index..][1..] == text[index + 1..];
      if 0x40 <= text[index] as int <= 0x7E {
        return index + 1;
      }
      index := index + 1;
    }
    return |text|;
  }

  method ControlEnd(text: string, start: nat) returns (end: Option<nat>)
    requires start < |text|
    ensures var n := ControlLength(text[start..]);
      end == if n == 0 then None else Some(start + n)
  {
    var character := text[start];
    assert text[start..][1..] == text[start + 1..];
    if character == ESC {
      if start + 1 >= |text| {
        return Some(|text|);
      }
      assert text[start..][2..] == text[start + 2..];
      var introducer := text[start + 1];
      if introducer == '[' {
        var e := CsiEnd(text, start + 2);
        return Some(e);
      }
      if introducer in "]PX^_" {
        var e := TerminatedControlEnd(text, start + 2);
        return Some(e);
      }
      return Some(start + 2);
    }
    if character == CSI {
      var e := CsiEnd(text, start + 1);
      return Some(e);
    }
    if character in "\U{90}\U{98}\U{9D}\U{9E}\U{9F}" {
      var e := TerminatedControlEnd(text, start + 1);
      return Some(e);
    }
    if character == ST {
      return Some(start + 1);
    }
    return None;
  }

  function PieceOf(t: AnsiToken): Piece { Piece(t.text, t.control) }

  function PiecesOf(ts: seq<AnsiToken>): (ps: seq<Piece>)
    ensures |ps| == |ts| && forall i :: 0 <= i < |ts| ==> ps[i] == PieceOf(ts[i])
  {
    if ts == [] then [] else [PieceOf(ts[0])] + PiecesOf(ts[1..])
  }

  /** The tokens lie end to end and cover `raw` from 0 up to `upTo`. */
  ghost predicate Tile(ts: seq<AnsiToken>, raw: string, upTo: nat) {
    && (forall i :: 0 <= i < |ts| ==> ts[i].start < ts[i].end <= |raw| && ts[i].text == raw[ts[i].start..ts[i].end])
    && (forall i :: 0 <= i < |ts| ==> ts[i].start == if i == 0 then 0 else ts[i - 1].end)
    && upTo == if ts == [] then 0 else ts[|ts| - 1].end
  }

  datatype AnsiProjection = AnsiProjection(raw: string, plain: string,
                                           tokens: seq<AnsiToken>, rawBoundaries: seq<nat>)
  {
    /** The projection describes its own raw text. */
    ghost predicate Valid() {
      && PiecesOf(tokens) == Pieces(raw)
      && Tile(tokens, raw, |raw|)
      && plain == Plain(raw)
      && |rawBoundaries| == |plain| + 1
      && forall n :: 0 <= n <= |plain| ==> Boundary(raw, n, rawBoundaries[n])
    }

    method RawBoundary(visibleOffset: int) returns (r: Result<nat, string>)
      requires Valid()
      ensures r.Success? <==> 0 <= visibleOffset <= |plain|
      ensures r.Success? ==> r.value <= |raw| && Plain(raw[r.value..]) == plain[visibleOffset..]
      ensures r.Success? && r.value < |raw| ==> !Introducer(raw[r.value])
    {
      if !(0 <= visibleOffset < |rawBoundaries|) {
        return Failure("visible offset is outside the projected text");
      }
      assert Boundary(raw, visibleOffset, rawBoundaries[visibleOffset]);
      return Success(rawBoundaries[visibleOffset]);
    }

    method RemoveVisiblePrefix(visibleCharacters: int) returns (r: Result<string, string>)
      requires Valid()
      ensures r.Success? <==> 0 <= visibleCharacters <= |plain|
      ensures r.Success? ==> r.value == Join(DropVisible(Pieces(raw), visibleCharacters))
      ensures r.Success? ==> Plain(r.value) == plain[visibleCharacters..]
      ensures r.Success? ==> Controls(Pieces(r.value)) == Controls(Pieces(raw))
    {
      if !(0 <= visibleCharacters <= |plain|) {
        return Failure("visible prefix length is outside the projected text");
      }
      var output := JoinAfterVisible(tokens, visibleCharacters);
      HiddenPrefixProjects(raw, visibleCharacters);
      return Success(output);
    }

    method VisibleSlice(start: int, end: int) returns (r: Result<string, string>)
      requires Valid()
      ensures r.Success? <==> 0 <= start <= end <= |plain|
      ensures r.Success? ==> r.value == Join(SliceVisible(Pieces(raw), start, end))
      ensures r.Success? ==> Plain(r.value) == plain[start..end]
    {
      if !(0 <= start <= end <= |plain|) {
        return Failure("visible slice is outside the projected text");
      }
      var output := JoinVisibleSlice(tokens, start, end);
      SliceProjects(raw, start, end);
      return Success(output);
    }
  }

  /** How far `limit` still lies ahead of `offset`. */
  function Past(limit: nat, offset: nat): nat {
    if offset >= limit then 0 else limit - offset
  }

  lemma {:induction false} JoinCons(p: Piece, ps: seq<Piece>)
    ensures Join([p] + ps) == p.text + Join(ps)
  {
    assert ([p] + ps)[1..] == ps;
  }

  /** `b` is where the raw text continues after `n` visible characters and the control
      tokens that follow them. */
  ghost predicate Boundary(raw: string, n: nat, b: nat) {
    && n <= |Plain(raw)|
    && b <= |raw|
    && Plain(raw[b..]) == Plain(raw)[n..]
    && (b < |raw| ==> !Introducer(raw[b]))
  }

  /** The tokens found so far tile the text before `index`, and only the rest is left to scan. */
  ghost predicate TokensScanned(text: string, index: nat, tokens: seq<AnsiToken>) {
    && index <= |text|
    && PiecesOf(tokens) + Pieces(text[index..]) == Pieces(text)
    && Tile(tokens, text, index)
  }

  /** The plain text and boundaries found so far belong to the text before `index`. */
  ghost predicate PlainScanned(text: string, index: nat, plain: string, rawBoundaries: seq<nat>) {
    && index <= |text|
    && plain + Plain(text[index..]) == Plain(text)
    && |rawBoundaries| == |plain| + 1
    && rawBoundaries[|plain|] == index
    && forall n :: 0 <= n < |plain| ==> Boundary(text, n, rawBoundaries[n])
  }

  lemma {:induction false} PiecesStep(text: string, index: nat)
    requires index < |text|
    ensures var p := Head(text[index..]);
      && index + |p.text| <= |text|
      && p.text == text[index..index + |p.text|]
      && Pieces(text[index..]) == [p] + Pieces(text[index + |p.text|..])
      && Plain(text[index..]) == (if p.control then "" else p.text) + Plain(text[index + |p.text|..])
      && p.control == (ControlLength(text[index..]) != 0)
  {
    var rest := text[index..];
    var p := Head(rest);
    assert rest[|p.text|..] == text[index + |p.text|..];
    assert ([p] + Pieces(text[index + |p.text|..]))[1..] == Pieces(text[index + |p.text|..]);
  }

  lemma {:induction false} PiecesOfSnoc(ts: seq<AnsiToken>, t: AnsiToken)
    ensures PiecesOf(ts + [t]) == PiecesOf(ts) + [PieceOf(t)]
  {
  }

  lemma {:induction false} TileSnoc(ts: seq<AnsiToken>, raw: string, t: AnsiToken)
    requires Tile(ts, raw, t.start)
    requires t.start < t.end <= |raw| && t.text == raw[t.start..t.end]
    ensures Tile(ts + [t], raw, t.end)
  {
  }

  lemma {:induction false} Moved<T>(done: seq<T>, x: T, rest: seq<T>, ahead: seq<T>, all: seq<T>)
    requires done + ahead == all && ahead == [x] + rest
    ensures (done + [x]) + rest == all
  {
  }

  lemma {:induction false} BoundaryReached(text: string, index: nat, plain: string)
    requires index < |text| && plain + Plain(text[index..]) == Plain(text)
    requires ControlLength(text[index..]) == 0
    ensures Boundary(text, |plain|, index)
  {
    assert Plain(text)[|plain|..] == Plain(text[index..]);
    assert text[index..][0] == text[index];
  }

  lemma {:induction false} TokenScanned(text: string, index: nat, tokens: seq<AnsiToken>, token: AnsiToken)
    requires index < |text| && TokensScanned(text, index, tokens)
    requires token.start == index < token.end <= |text| && token.text == text[index..token.end]
    requires Pieces(text[index..]) == [PieceOf(token)] + Pieces(text[token.end..])
    ensures TokensScanned(text, token.end, tokens + [token])
  {
    TileSnoc(tokens, text, token);
    PiecesOfSnoc(tokens, token);
    Moved(PiecesOf(tokens), PieceOf(token), Pieces(text[token.end..]), Pieces(text[index..]), Pieces(text));
  }

  lemma {:induction false} CharacterScanned(text: string, index: nat, plain: string, rawBoundaries: seq<nat>)
    requires index < |text| && PlainScanned(text, index, plain, rawBoundaries)
    requires ControlLength(text[index..]) == 0
    requires Plain(text[index..]) == [text[index]] + Plain(text[index + 1..])
    ensures PlainScanned(text, index + 1, plain + [text[index]], rawBoundaries + [index + 1])
  {
    BoundaryReached(text, index, plain);
    Moved(plain, text[index], Plain(text[index + 1..]), Plain(text[index..]), Plain(text));
  }

  lemma {:induction false} ControlPassed(text: string, index: nat, plain: string, rawBoundaries: seq<nat>, end: nat)
    requires index < end <= |text| && PlainScanned(text, index, plain, rawBoundaries)
    requires Plain(text[index..]) == Plain(text[end..])
    ensures PlainScanned(text, end, plain, rawBoundaries[|rawBoundaries| - 1 := end])
  {
  }

  lemma {:induction false} ControlStep(text: string, index: nat, end: nat)
    requires index < |text|
    requires ControlLength(text[index..]) != 0 && end == index + ControlLength(text[index..])
    ensures index < end <= |text|
    ensures Pieces(text[index..]) == [Piece(text[index..end], true)] + Pieces(text[end..])
    ensures Plain(text[index..]) == Plain(text[end..])
  {
    PiecesStep(text, index);
    hide Pieces, Plain, ControlLength;
  }

  lemma {:induction false} CharacterStep(text: string, index: nat)
    requires index < |text| && ControlLength(text[index..]) == 0
    ensures Pieces(text[index..]) == [Piece(text[index..index + 1], false)] + Pieces(text[index + 1..])
    ensures Plain(text[index..]) == [text[index]] + Plain(text[index + 1..])
  {
    PiecesStep(text, index);
    hide Pieces, Plain, ControlLength;
  }

  /** One round of `project_ansi` on a control token. */
  lemma {:induction false} ControlRound(text: string, index: nat, tokens: seq<AnsiToken>, plain: string,
                                        rawBoundaries: seq<nat>, end: nat)
    requires index < |text| && TokensScanned(text, index, tokens) && PlainScanned(text, index, plain, rawBoundaries)
    requires ControlLength(text[index..]) != 0 && end == index + ControlLength(text[index..])
    ensures end <= |text| && TokensScanned(text, end, tokens + [AnsiToken(text[index..end], index, end, true)])
    ensures rawBoundaries != [] && PlainScanned(text, end, plain, rawBoundaries[|rawBoundaries| - 1 := end])
  {
    hide TokensScanned, Plain, Pieces, ControlLength, Boundary;
    ControlStep(text, index, end);
    hide PlainScanned;
    TokenScanned(text, index, tokens, AnsiToken(text[index..end], index, end, true));
    ControlPassed(text, index, plain, rawBoundaries, end);
  }

  /** One round of `project_ansi` on a visible character. */
  lemma {:induction false} VisibleRound(text: string, index: nat, tokens: seq<AnsiToken>, plain: string,
                                        rawBoundaries: seq<nat>, end: nat)
    requires index < |text| && TokensScanned(text, index, tokens) && PlainScanned(text, index, plain, rawBoundaries)
    requires ControlLength(text[index..]) == 0 && end == index + 1
    ensures TokensScanned(text, end, tokens + [AnsiToken(text[index..end], index, end, false)])
    ensures PlainScanned(text, end, plain + text[index..end], rawBoundaries + [end])
  {
    hide PlainScanned, TokensScanned, Plain, Pieces, ControlLength;
    CharacterStep(text, index);
    assert text[index..end] == [text[index]];
    TokenScanned(text, index, tokens, AnsiToken(text[index..end], index, end, false));
    CharacterScanned(text, index, plain, rawBoundaries);
  }

  lemma {:induction false} NothingScanned(text: string)
    ensures TokensScanned(text, 0, []) && PlainScanned(text, 0, "", [0])
  {
    assert text[0..] == text;
  }

  method ProjectAnsi(text: string) returns (p: AnsiProjection)
    ensures p.raw == text && p.Valid()
  {
    hide PlainScanned, TokensScanned, ControlLength, AnsiProjection.Valid;
    var tokens: seq<AnsiToken> := [];
    var plain := "";
    var rawBoundaries: seq<nat> := [0];
    var index := 0;
    NothingScanned(text);
    while index < |text|
      invariant index <= |text| && rawBoundaries != []
      invariant TokensScanned(text, index, tokens)
      invariant PlainScanned(text, index, plain, rawBoundaries)
    {
      var controlEnd := ControlEnd(text, index);
      if controlEnd.Some? {
        ControlRound(text, index, tokens, plain, rawBoundaries, controlEnd.value);
        var token := AnsiToken(text[index..controlEnd.value], index, controlEnd.value, true);
        tokens := tokens + [token];
        rawBoundaries := rawBoundaries[|rawBoundaries| - 1 := controlEnd.value];
        index := controlEnd.value;
      } else {
        var end := index + 1;
        VisibleRound(text, index, tokens, plain, rawBoundaries, end);
        var token := AnsiToken(text[index..end], index, end, false);
        tokens := tokens + [token];
        plain := plain + text[index..end];
        rawBoundaries := rawBoundaries + [end];
        index := end;
      }
    }
    p := AnsiProjection(text, plain, tokens, rawBoundaries);
    ScannedIsValid(p);
  }

  lemma {:induction false} ScannedIsValid(p: AnsiProjection)
    requires TokensScanned(p.raw, |p.raw|, p.tokens)
    requires PlainScanned(p.raw, |p.raw|, p.plain, p.rawBoundaries)
    ensures p.Valid()
  {
    assert p.raw[|p.raw|..] == "";
    assert Boundary(p.raw, |p.plain|, |p.raw|);
  }

  /** What `remove_visible_prefix` still has to write from token `i` on, `offset` characters in. */
  function DropRest(ps: seq<Piece>, i: nat, n: nat, offset: nat): string
    requires i <= |ps|
  {
    Join(DropVisible(ps[i..], Past(n, offset)))
  }

  lemma {:induction false} DropEnds(ps: seq<Piece>, n: nat)
    ensures DropRest(ps, 0, n, 0) == Join(DropVisible(ps, n))
    ensures forall offset :: DropRest(ps, |ps|, n, offset) == ""
  {
    assert ps[0..] == ps && ps[|ps|..] == [];
  }

  lemma {:induction false} DropStep(ps: seq<Piece>, i: nat, n: nat, offset: nat)
    requires i < |ps|
    ensures DropRest(ps, i, n, offset) ==
      if ps[i].control then ps[i].text + DropRest(ps, i + 1, n, offset)
      else (if offset >= n then ps[i].text else "") + DropRest(ps, i + 1, n, offset + 1)
  {
    assert ps[i..][1..] == ps[i + 1..];
    JoinCons(ps[i], DropVisible(ps[i + 1..], Past(n, if ps[i].control then offset else offset + 1)));
  }

  /** The loop of `remove_visible_prefix`. */
  method JoinAfterVisible(tokens: seq<AnsiToken>, visibleCharacters: nat) returns (output: string)
    ensures output == Join(DropVisible(PiecesOf(tokens), visibleCharacters))
  {
    hide Join, DropVisible, PiecesOf, DropRest;
    var visibleOffset: nat := 0;
    output := "";
    ghost var ps := PiecesOf(tokens);
    DropEnds(ps, visibleCharacters);
    for i := 0 to |tokens|
      invariant DropRest(ps, 0, visibleCharacters, 0) == output + DropRest(ps, i, visibleCharacters, visibleOffset)
    {
      var token := tokens[i];
      DropStep(ps, i, visibleCharacters, visibleOffset);
      if token.control {
        output := output + token.text;
      } else {
        if visibleOffset >= visibleCharacters {
          output := output + token.text;
        }
        visibleOffset := visibleOffset + 1;
      }
    }
  }

  /** What `visible_slice` still has to write from token `i` on, `offset` characters in. */
  function SliceRest(ps: seq<Piece>, i: nat, start: nat, end: nat, offset: nat): string
    requires i <= |ps|
  {
    Join(SliceVisible(ps[i..], Past(start, offset), Past(end, offset)))
  }

  lemma {:induction false} SliceEnds(ps: seq<Piece>, start: nat, end: nat)
    ensures SliceRest(ps, 0, start, end, 0) == Join(SliceVisible(ps, start, end))
    ensures forall offset :: SliceRest(ps, |ps|, start, end, offset) == ""
  {
    assert ps[0..] == ps && ps[|ps|..] == [];
  }

  lemma {:induction false} SliceStep(ps: seq<Piece>, i: nat, start: nat, end: nat, offset: nat)
    requires i < |ps| && start <= end
    ensures SliceRest(ps, i, start, end, offset) ==
      if ps[i].control then
        (if offset < end then ps[i].text else "") + SliceRest(ps, i + 1, start, end, offset)
      else
        (if start <= offset < end then ps[i].text else "") + SliceRest(ps, i + 1, start, end, offset + 1)
  {
    assert ps[i..][1..] == ps[i + 1..];
    var next := if ps[i].control then offset else offset + 1;
    var r := SliceVisible(ps[i + 1..], Past(start, next), Past(end, next));
    JoinCons(ps[i], r);
    if (ps[i].control || start <= offset) && offset < end {
      assert SliceVisible(ps[i..], Past(start, offset), Past(end, offset)) == [ps[i]] + r;
    } else {
      assert SliceVisible(ps[i..], Past(start, offset), Past(end, offset)) == [] + r == r;
    }
  }

  /** The loop of `visible_slice`. */
  method JoinVisibleSlice(tokens: seq<AnsiToken>, start: nat, end: nat) returns (output: string)
    requires start <= end
    ensures output == Join(SliceVisible(PiecesOf(tokens), start, end))
  {
    hide Join, SliceVisible, PiecesOf, SliceRest;
    var visibleOffset: nat := 0;
    output := "";
    ghost var ps := PiecesOf(tokens);
    SliceEnds(ps, start, end);
    for i := 0 to |tokens|
      invariant SliceRest(ps, 0, start, end, 0) == output + SliceRest(ps, i, start, end, visibleOffset)
    {
      var token := tokens[i];
      SliceStep(ps, i, start, end, visibleOffset);
      if token.control {
        if visibleOffset < end {
          output := output + token.text;
        }
      } else {
        if start <= visibleOffset < end {
          output := output + token.text;
        }
        visibleOffset := visibleOffset + 1;
      }
    }
  }

  /** What the adapters keep of one inbound line (`_parsed` in `src/tfr/adapters.py`). */
  datatype ParsedInbound = ParsedInbound(canonicalText: string, plainText: string,
                                         displayText: string, messageText: string,
                                         prefixSpan: Option<(nat, nat)>)

  /** Display text whose prefix is hidden, and raw text after the recorded prefix span,
      both project to exactly the message text. `prefixEnd` is where an adapter's
      pattern match on the plain text ended. */
  method Parsed(text: string, projection: AnsiProjection, prefixEnd: Option<nat>, showPrefix: bool)
    returns (r: ParsedInbound)
    requires projection.Valid() && projection.raw == text
    requires prefixEnd.Some? ==> prefixEnd.value <= |projection.plain|
    ensures r.canonicalText == text && r.plainText == Plain(text)
    ensures r.messageText == if prefixEnd.Some? then Plain(text)[prefixEnd.value..] else Plain(text)
    ensures !showPrefix ==> Plain(r.displayText) == r.messageText
    ensures showPrefix || prefixEnd.None? ==> r.displayText == text
    ensures Controls(Pieces(r.displayText)) == Controls(Pieces(text))
    ensures r.prefixSpan.Some? <==> prefixEnd.Some?
    ensures r.prefixSpan.Some? ==>
      var (from, to) := r.prefixSpan.value;
      from == 0 && to <= |text| && Plain(text[to..]) == r.messageText
  {
    var message := if prefixEnd.Some? then projection.plain[prefixEnd.value..] else projection.plain;
    var span: Option<(nat, nat)> := None;
    if prefixEnd.Some? {
      var boundary := projection.RawBoundary(prefixEnd.value);
      span := Some((0, boundary.value));
    }
    var display := text;
    if !showPrefix && prefixEnd.Some? {
      var removed := projection.RemoveVisiblePrefix(prefixEnd.value);
      display := removed.value;
    }
    r := ParsedInbound(text, projection.plain, display, message, span);
  }
}

/** axiom-run's line-buffered merging of the output of many nodes. */
module OutputMerge {

  const MAX_NUM_NODES: nat := 63
  const NEWLINE: char := '\n'

  // ----- lines of a text -----

  /** The position of the first newline, or the length of the text. */
  function FirstBreak(s: string): (k: nat)
    ensures k <= |s| && (k < |s| ==> s[k] == NEWLINE) && NEWLINE !in s[..k]
  {
    if s == [] || s[0] == NEWLINE then 0
    else
      var k := FirstBreak(s[1..]) + 1;
      assert s[..k] == [s[0]] + s[1..][..k - 1];
      k
  }

  /** The complete lines of a text, each with its newline. */
  function Lines(s: string): seq<string>
    decreases |s|
  {
    var k := FirstBreak(s);
    if k == |s| then [] else [s[..k + 1]] + Lines(s[k + 1..])
  }

  /** What follows the last newline. */
  function Rest(s: string): string
    decreases |s|
  {
    var k := FirstBreak(s);
    if k == |s| then s else Rest(s[k + 1..])
  }

  lemma {:induction false} BreakConcat(s: string, t: string)
    ensures FirstBreak(s) < |s| ==> FirstBreak(s + t) == FirstBreak(s)
    ensures FirstBreak(s) == |s| ==> FirstBreak(s + t) == |s| + FirstBreak(t)
    decreases |s|
  {
    if s == [] {
      assert s + t == t;
    } else if s[0] != NEWLINE {
      BreakConcat(s[1..], t);
      assert (s + t)[1..] == s[1..] + t;
    }
  }

  lemma Unfold(s: string)
    ensures var k := FirstBreak(s);
            && (k == |s| ==> Lines(s) == [] && Rest(s) == s)
            && (k < |s| ==> Lines(s) == [s[..k + 1]] + Lines(s[k + 1..]) && Rest(s) == Rest(s[k + 1..]))
  {
    hide FirstBreak;
  }

  /** A text can be read in two parts: the second starts with what the first left over. */
  lemma {:induction false} LinesConcat(s: string, t: string)
    ensures Lines(s + t) == Lines(s) + Lines(Rest(s) + t)
    ensures Rest(s + t) == Rest(Rest(s) + t)
    decreases |s|
  {
    hide FirstBreak, Lines, Rest;
    var k := FirstBreak(s);
    BreakConcat(s, t);
    Unfold(s);
    if k < |s| {
      var line, tail := s[..k + 1], s[k + 1..];
      Unfold(s + t);
      LinesConcat(tail, t);
      assert (s + t)[k + 1..] == tail + t && (s + t)[..k + 1] == line;
      assert [line] + (Lines(tail) + Lines(Rest(tail) + t)) == ([line] + Lines(tail)) + Lines(Rest(tail) + t);
    } else {
      assert [] + Lines(s + t) == Lines(s + t);
    }
  }

  lemma {:induction false} RestClean(s: string)
    ensures NEWLINE !in Rest(s) && Rest(Rest(s)) == Rest(s) && Lines(Rest(s)) == []
    decreases |s|
  {
    var k := FirstBreak(s);
    if k < |s| {
      RestClean(s[k + 1..]);
    } else {
      assert s[..k] == s;
    }
  }

  /** A text with one newline, at its end. */
  predicate IsLine(l: string) {
    |l| > 0 && l[|l| - 1] == NEWLINE && NEWLINE !in l[..|l| - 1]
  }

  lemma {:induction false} LineShape(s: string, i: nat)
    requires i < |Lines(s)|
    ensures IsLine(Lines(s)[i])
    decreases |s|
  {
    var k := FirstBreak(s);
    if i == 0 {
      assert s[..k + 1][..k] == s[..k];
    } else {
      LineShape(s[k + 1..], i - 1);
    }
  }

  function Concat(ls: seq<string>): string {
    if ls == [] then "" else ls[0] + Concat(ls[1..])
  }

  lemma Glue(s: string, k: nat, t: string, u: string)
    requires k <= |s| && s[k..] == t + u
    ensures (s[..k] + t) + u == s
  {
    assert s == s[..k] + s[k..];
  }

  lemma ConcatNone()
    ensures Concat([]) == ""
  {
  }

  lemma ConcatCons(l: string, ls: seq<string>)
    ensures Concat([l] + ls) == l + Concat(ls)
  {
    assert ([l] + ls)[1..] == ls;
  }

  lemma {:induction false} LinesConserve(s: string)
    ensures Concat(Lines(s)) + Rest(s) == s
    decreases |s|
  {
    hide FirstBreak, Lines, Rest, Concat;
    var k := FirstBreak(s);
    Unfold(s);
    if k < |s| {
      var line, tail := s[..k + 1], s[k + 1..];
      LinesConserve(tail);
      ConcatCons(line, Lines(tail));
      Glue(s, k + 1, Concat(Lines(tail)), Rest(tail));
    } else {
      ConcatNone();
      assert "" + s == s;
    }
  }

  // ----- the merge as a whole -----

  /** A piece of text that came from a node; `marked` pieces can get the node's mark in front. */
  datatype Record = Record(node: nat, text: string, marked: bool)

  datatype Event = Event(node: nat, chunk: string)

  /** What has been emitted, line by line, and what is pending for each node. */
  datatype Merge = Merge(records: seq<Record>, pending: seq<string>)

  function Of(node: nat, ls: seq<string>): (rs: seq<Record>)
    ensures |rs| == |ls| && forall i :: 0 <= i < |ls| ==> rs[i] == Record(node, ls[i], true)
  {
    seq(|ls|, i requires 0 <= i < |ls| => Record(node, ls[i], true))
  }

  /** A chunk from a node completes lines and leaves a rest. */
  function Arrive(m: Merge, e: Event): Merge
    requires e.node < |m.pending|
  {
    var s := m.pending[e.node] + e.chunk;
    Merge(m.records + Of(e.node, Lines(s)), m.pending[e.node := Rest(s)])
  }

  function ArriveAll(m: Merge, es: seq<Event>): (r: Merge)
    requires forall i :: 0 <= i < |es| ==> es[i].node < |m.pending|
    ensures |r.pending| == |m.pending|
    decreases |es|
  {
    if es == [] then m else ArriveAll(Arrive(m, es[0]), es[1..])
  }

  /** The same with a buffer: when a line would outgrow it, the pending text goes out bare. */
  function Take(m: Merge, e: Event, maxBuffer: nat): Merge
    requires e.node < |m.pending|
  {
    var p := m.pending[e.node];
    if NEWLINE in e.chunk || |p| + |e.chunk| <= maxBuffer then Arrive(m, e)
    else Merge(m.records + [Record(e.node, p, false)], m.pending[e.node := e.chunk])
  }

  function TakeAll(m: Merge, es: seq<Event>, maxBuffer: nat): (r: Merge)
    requires forall i :: 0 <= i < |es| ==> es[i].node < |m.pending|
    ensures |r.pending| == |m.pending|
    decreases |es|
  {
    if es == [] then m else TakeAll(Take(m, es[0], maxBuffer), es[1..], maxBuffer)
  }

  /** Nothing was emitted, and nothing is pending. */
  function Empty(): Merge {
    Merge([], seq(MAX_NUM_NODES, _ => ""))
  }

  /** The stream of a node: its chunks in order. */
  function StreamOf(es: seq<Event>, node: nat): string
    decreases |es|
  {
    if es == [] then "" else (if es[0].node == node then es[0].chunk else "") + StreamOf(es[1..], node)
  }

  /** The emitted texts that came from a node. */
  function TextsOf(rs: seq<Record>, node: nat): seq<string>
    decreases |rs|
  {
    if rs == [] then [] else (if rs[0].node == node then [rs[0].text] else []) + TextsOf(rs[1..], node)
  }

  lemma {:induction false} TextsConcat(rs: seq<Record>, qs: seq<Record>, node: nat)
    ensures TextsOf(rs + qs, node) == TextsOf(rs, node) + TextsOf(qs, node)
    decreases |rs|
  {
    hide TextsOf;
    if rs == [] {
      TextsNone(node);
      assert rs + qs == qs && [] + TextsOf(qs, node) == TextsOf(qs, node);
    } else {
      var r, ps := rs[0], rs[1..];
      TextsConcat(ps, qs, node);
      TextsCons(r, ps, node);
      TextsCons(r, ps + qs, node);
      assert rs == [r] + ps && rs + qs == [r] + (ps + qs);
      var first := if r.node == node then [r.text] else [];
      assert first + (TextsOf(ps, node) + TextsOf(qs, node)) == (first + TextsOf(ps, node)) + TextsOf(qs, node);
    }
  }

  lemma TextsNone(node: nat)
    ensures TextsOf([], node) == []
  {
  }

  lemma TextsCons(r: Record, rs: seq<Record>, node: nat)
    ensures TextsOf([r] + rs, node) == (if r.node == node then [r.text] else []) + TextsOf(rs, node)
  {
    assert ([r] + rs)[1..] == rs;
  }

  lemma {:induction false} TextsOfNode(ls: seq<string>, node: nat, n: nat)
    ensures TextsOf(Of(node, ls), n) == if n == node then ls else []
    decreases |ls|
  {
    if ls != [] {
      TextsOfNode(ls[1..], node, n);
      assert Of(node, ls)[1..] == Of(node, ls[1..]);
    }
  }

  lemma CleanText(s: string)
    requires NEWLINE !in s
    ensures Lines(s) == [] && Rest(s) == s
  {
  }

  /** For any split of the streams into chunks and any interleaving, each node's emitted texts are
      exactly the complete lines of its stream, in order, and the rest of the stream is pending. */
  lemma {:induction false} ChunkingIrrelevant(m: Merge, es: seq<Event>, node: nat)
    requires (forall i :: 0 <= i < |es| ==> es[i].node < |m.pending|) && node < |m.pending|
    requires NEWLINE !in m.pending[node]
    ensures var r, s := ArriveAll(m, es), m.pending[node] + StreamOf(es, node);
            TextsOf(r.records, node) == TextsOf(m.records, node) + Lines(s) && r.pending[node] == Rest(s)
    decreases |es|
  {
    hide Lines, Rest, TextsOf, Arrive;
    var p := m.pending[node];
    if es == [] {
      CleanText(p);
      assert p + "" == p;
      assert TextsOf(m.records, node) + [] == TextsOf(m.records, node);
    } else {
      var e, n, later := es[0], Arrive(m, es[0]), StreamOf(es[1..], node);
      ArriveTexts(m, e, node);
      ChunkingIrrelevant(n, es[1..], node);
      if e.node == node {
        var s := p + e.chunk;
        LinesConcat(s, later);
        assert s + later == p + StreamOf(es, node);
        assert TextsOf(m.records, node) + (Lines(s) + Lines(Rest(s) + later)) ==
               (TextsOf(m.records, node) + Lines(s)) + Lines(Rest(s) + later);
      } else {
        assert "" + later == later;
      }
    }
  }

  lemma ArriveTexts(m: Merge, e: Event, node: nat)
    requires e.node < |m.pending| && node < |m.pending| && NEWLINE !in m.pending[node]
    ensures var n, s := Arrive(m, e), m.pending[node] + e.chunk;
            && |n.pending| == |m.pending|
            && NEWLINE !in n.pending[node]
            && (e.node == node ==>
                  TextsOf(n.records, node) == TextsOf(m.records, node) + Lines(s) && n.pending[node] == Rest(s))
            && (e.node != node ==>
                  TextsOf(n.records, node) == TextsOf(m.records, node) && n.pending[node] == m.pending[node])
  {
    hide Lines, Rest, TextsOf;
    var s := m.pending[e.node] + e.chunk;
    RestClean(s);
    TextsConcat(m.records, Of(e.node, Lines(s)), node);
    TextsOfNode(Lines(s), e.node, node);
    assert TextsOf(m.records, node) + [] == TextsOf(m.records, node);
  }

  // ----- the emitted text -----

  const DIGITS: string := "0123456789"

  /** The mark of a node, "%02d:" or "{%02d}". */
  function Mark(node: nat, alternate: bool): string
    requires node < 100
  {
    var two := [DIGITS[node / 10], DIGITS[node % 10]];
    if alternate then "{" + two + "}" else two + ":"
  }

  predicate Ident(flags: nat) {
    flags % 2 == 1
  }

  predicate Alternate(flags: nat) {
    flags / 2 % 2 == 1
  }

  /** A mark is the number of its node in two digits, then ":", or between braces. */
  lemma MarkReads(node: nat, alternate: bool)
    requires node < 100
    ensures var m := Mark(node, alternate);
            var at := if alternate then 1 else 0;
            && |m| == (if alternate then 4 else 3)
            && '0' <= m[at] <= '9' && '0' <= m[at + 1] <= '9'
            && 10 * (m[at] as int - '0' as int) + (m[at + 1] as int - '0' as int) == node
            && (alternate ==> m[0] == '{' && m[3] == '}')
            && (!alternate ==> m[2] == ':')
  {
    assert forall i :: 0 <= i < 10 ==> DIGITS[i] as int == '0' as int + i;
  }

  /** The lowest bit of the flags asks for marks, and the next one for the form with braces. */
  lemma FlagBits(ident: nat, alternate: nat, others: nat)
    requires ident < 2 && alternate < 2
    ensures Ident(ident + 2 * alternate + 4 * others) <==> ident == 1
    ensures Alternate(ident + 2 * alternate + 4 * others) <==> alternate == 1
  {
  }

  function MarkFor(flags: nat, node: nat): string
    requires node < 100
  {
    if Ident(flags) then Mark(node, Alternate(flags)) else ""
  }

  /** The text of the records: marked ones after their node's mark, when marks are asked for. */
  function Render(flags: nat, rs: seq<Record>): string
    requires forall i :: 0 <= i < |rs| ==> rs[i].node < 100
    decreases |rs|
  {
    if rs == [] then ""
    else (if rs[0].marked then MarkFor(flags, rs[0].node) else "") + rs[0].text + Render(flags, rs[1..])
  }

  lemma {:induction false} RenderConcat(flags: nat, rs: seq<Record>, qs: seq<Record>)
    requires (forall i :: 0 <= i < |rs| ==> rs[i].node < 100) && (forall i :: 0 <= i < |qs| ==> qs[i].node < 100)
    ensures Render(flags, rs + qs) == Render(flags, rs) + Render(flags, qs)
    decreases |rs|
  {
    hide MarkFor;
    if rs == [] {
      assert rs + qs == qs;
    } else {
      RenderConcat(flags, rs[1..], qs);
      assert (rs + qs)[1..] == rs[1..] + qs;
      var head := (if rs[0].marked then MarkFor(flags, rs[0].node) else "") + rs[0].text;
      assert head + (Render(flags, rs[1..]) + Render(flags, qs)) == (head + Render(flags, rs[1..])) + Render(flags, qs);
    }
  }

  lemma {:induction false} RenderPlain(flags: nat, node: nat, ls: seq<string>)
    requires node < 100 && !Ident(flags)
    ensures Render(flags, Of(node, ls)) == Concat(ls)
    decreases |ls|
  {
    if ls != [] {
      RenderPlain(flags, node, ls[1..]);
      assert Of(node, ls)[1..] == Of(node, ls[1..]);
    }
  }

  lemma {:induction false} ConcatAppend(xs: seq<string>, ys: seq<string>)
    ensures Concat(xs + ys) == Concat(xs) + Concat(ys)
  {
    hide Concat;
    if xs == [] {
      ConcatNone();
      assert xs + ys == ys && "" + Concat(ys) == Concat(ys);
    } else {
      var x, zs := xs[0], xs[1..];
      ConcatAppend(zs, ys);
      ConcatCons(x, zs);
      ConcatCons(x, zs + ys);
      assert xs == [x] + zs && xs + ys == [x] + (zs + ys);
      assert x + (Concat(zs) + Concat(ys)) == (x + Concat(zs)) + Concat(ys);
    }
  }

  /** A text that ends with a newline. */
  lemma {:induction false} EndsLine(s: string)
    requires |s| > 0 && s[|s| - 1] == NEWLINE
    ensures Rest(s) == "" && Concat(Lines(s)) == s
    ensures FirstBreak(s) == |s| - 1 ==> Lines(s) == [s]
    decreases |s|
  {
    var k := FirstBreak(s);
    assert s[..|s|] == s;
    if k < |s| - 1 {
      EndsLine(s[k + 1..]);
    } else {
      assert s[..k + 1] == s && s[k + 1..] == "";
    }
    LinesConserve(s);
    assert Concat(Lines(s)) + "" == Concat(Lines(s));
  }

  /** What is emitted for a text up to a newline: one line with marks, any number without. */
  lemma RenderPiece(flags: nat, node: nat, x: string)
    requires node < 100 && |x| > 0 && x[|x| - 1] == NEWLINE && (Ident(flags) ==> FirstBreak(x) == |x| - 1)
    ensures Render(flags, Of(node, Lines(x))) == MarkFor(flags, node) + x
  {
    hide Mark;
    EndsLine(x);
    if Ident(flags) {
      assert Of(node, [x])[1..] == [];
      assert Render(flags, Of(node, [x])) == MarkFor(flags, node) + x + "";
    } else {
      RenderPlain(flags, node, Lines(x));
    }
  }

  // ----- the code -----

  method FindFirst(s: string) returns (k: nat)
    ensures k == FirstBreak(s)
  {
    k := 0;
    while k < |s| && s[k] != NEWLINE
      invariant k <= |s| && k + FirstBreak(s[k..]) == FirstBreak(s)
    {
      assert s[k..][1..] == s[k + 1..];
      k := k + 1;
    }
  }

  /** The position of the last newline, or the length of the text. */
  method FindLast(s: string) returns (k: nat)
    ensures k <= |s| && (k < |s| ==> s[k] == NEWLINE && NEWLINE !in s[k + 1..]) && (k == |s| ==> NEWLINE !in s)
  {
    var n: nat := |s|;
    while n > 0 && s[n - 1] != NEWLINE
      invariant n <= |s| && NEWLINE !in s[n..]
    {
      assert s[n - 1..] == [s[n - 1]] + s[n..];
      n := n - 1;
    }
    assert s[0..] == s;
    k := if n > 0 then n - 1 else |s|;
  }

  /** What is written for one more line, or run of lines, of a text. */
  lemma RenderNext(flags: nat, node: nat, head: string, x: string)
    requires node < 100 && Rest(head) == ""
    requires |x| > 0 && x[|x| - 1] == NEWLINE && (Ident(flags) ==> FirstBreak(x) == |x| - 1)
    ensures Rest(head + x) == ""
    ensures Render(flags, Of(node, Lines(head + x))) ==
            Render(flags, Of(node, Lines(head))) + (MarkFor(flags, node) + x)
  {
    hide Render, Lines, Rest, MarkFor, FirstBreak;
    LinesConcat(head, x);
    assert "" + x == x;
    EndsLine(x);
    RenderPiece(flags, node, x);
    assert Of(node, Lines(head) + Lines(x)) == Of(node, Lines(head)) + Of(node, Lines(x));
    RenderConcat(flags, Of(node, Lines(head)), Of(node, Lines(x)));
  }

  /** A piece of buffer that ends at the newline the code found, after a clean carry. */
  lemma PieceShape(flags: nat, carry: string, rest: string, k: nat)
    requires NEWLINE !in carry && k < |rest| && rest[k] == NEWLINE && (Ident(flags) ==> k == FirstBreak(rest))
    ensures var x := carry + rest[..k + 1];
            |x| > 0 && x[|x| - 1] == NEWLINE && (Ident(flags) ==> FirstBreak(x) == |x| - 1)
  {
    var x := carry + rest[..k + 1];
    if Ident(flags) {
      assert carry[..|carry|] == carry;
      BreakConcat(carry, rest[..k + 1]);
      BreakConcat(rest[..k + 1], rest[k + 1..]);
      assert rest == rest[..k + 1] + rest[k + 1..];
    }
  }

  /** What has been written when the next piece is due: the lines of `head`, and maybe a carry. */
  ghost predicate Written(flags: nat, node: nat, head: string, carry: string, first: bool, out: string)
    requires node < 100
  {
    && Rest(head) == ""
    && out == Render(flags, Of(node, Lines(head))) + (if first then "" else MarkFor(flags, node) + carry)
  }

  lemma Reassociate(a: string, b: string, c: string, d: string)
    ensures a + (b + (c + d)) == (a + (b + c)) + d == (a + b) + (c + d) == ((a + b) + c) + d
  {
  }

  lemma Joined(was: string, mark: string, carry: string, y: string, first: bool)
    requires first ==> carry == ""
    ensures (if first then (was + "") + mark else was + (mark + carry)) + y == was + (mark + (carry + y))
  {
    if first {
      assert was + "" == was && "" + y == y;
    }
    Reassociate(was, mark, carry, y);
  }

  lemma WritePiece(flags: nat, node: nat, head: string, carry: string, first: bool, out: string, rest: string, k: nat)
    requires node < 100 && Written(flags, node, head, carry, first, out) && (first ==> carry == "")
    requires NEWLINE !in carry && k < |rest| && rest[k] == NEWLINE && (Ident(flags) ==> k == FirstBreak(rest))
    ensures Written(flags, node, head + (carry + rest[..k + 1]), "", true,
                    (if first then out + MarkFor(flags, node) else out) + rest[..k + 1])
  {
    hide Render, Lines, Rest, FirstBreak, MarkFor;
    var y := rest[..k + 1];
    PieceShape(flags, carry, rest, k);
    RenderNext(flags, node, head, carry + y);
    var was, mark := Render(flags, Of(node, Lines(head))), MarkFor(flags, node);
    Joined(was, mark, carry, y, first);
    var now := was + (mark + (carry + y));
    assert now + "" == now;
  }

  lemma PassPiece(head: string, carry: string, rest: string, k: nat)
    requires k < |rest|
    ensures head + (carry + rest[..k + 1]) + "" + rest[k + 1..] == head + carry + rest
  {
    var y, z := rest[..k + 1], rest[k + 1..];
    assert rest == y + z;
    Reassociate(head, carry, y, z);
    assert head + (carry + y) + "" == head + (carry + y);
  }

  /** What is written when a chunk with a newline arrives after the pending text p, and what is
      left over: the complete lines of both together, each marked once. */
  method WriteLines(flags: nat, node: nat, p: string, buffer: string, found: nat) returns (out: string, rest: string)
    requires node < 100 && NEWLINE !in p && found < |buffer| && buffer[found] == NEWLINE
    requires if Ident(flags) then found == FirstBreak(buffer) else NEWLINE !in buffer[found + 1..]
    ensures out == Render(flags, Of(node, Lines(p + buffer))) && rest == Rest(p + buffer) && |rest| <= |buffer|
  {
    hide Render, Lines, Rest, FirstBreak, Mark, Written;
    var mark := if Ident(flags) then Mark(node, Alternate(flags)) else "";
    var k: nat, first := found, true;
    ghost var head, carry := "", p;
    CleanText("");
    BeginWriting(flags, node, p);
    out, rest := "", buffer;
    if |p| > 0 {
      out, first := mark + p, false;
    }
    assert "" + p + buffer == p + buffer;
    while k < |rest|
      invariant head + carry + rest == p + buffer && NEWLINE !in carry && (first ==> carry == "")
      invariant Written(flags, node, head, carry, first, out)
      invariant k <= |rest| <= |buffer| && (k < |rest| ==> rest[k] == NEWLINE)
                && (k == |rest| ==> first && NEWLINE !in rest)
      invariant Ident(flags) ==> k == FirstBreak(rest)
      decreases |rest|
    {
      WritePiece(flags, node, head, carry, first, out, rest, k);
      PassPiece(head, carry, rest, k);
      if first {
        out := out + mark;
      }
      out := out + rest[..k + 1];
      head, carry, first := head + (carry + rest[..k + 1]), "", true;
      rest := rest[k + 1..];
      k := FindFirst(rest);
      assert rest[..|rest|] == rest;
    }
    EndWriting(flags, node, head, rest, out);
    assert head + "" + rest == head + rest;
  }

  lemma BeginWriting(flags: nat, node: nat, p: string)
    requires node < 100
    ensures Written(flags, node, "", p, false, MarkFor(flags, node) + p)
            && (p == "" ==> Written(flags, node, "", p, true, ""))
  {
    hide MarkFor;
    EmptyRender(flags, node);
    CleanText("");
  }

  lemma EndWriting(flags: nat, node: nat, head: string, rest: string, out: string)
    requires node < 100 && Written(flags, node, head, "", true, out) && NEWLINE !in rest
    ensures out == Render(flags, Of(node, Lines(head + rest))) && rest == Rest(head + rest)
  {
    hide Render, Lines, Rest;
    LinesConcat(head, rest);
    CleanText(rest);
    assert "" + rest == rest && Lines(head) + [] == Lines(head);
  }

  // ----- no byte is lost -----

  /** Nothing of node n is lost or reordered: what was emitted and what is pending is its stream. */
  ghost predicate Conserved(rs: seq<Record>, pending: seq<string>, streams: seq<string>, n: nat)
    requires n < |pending| && n < |streams|
  {
    Concat(TextsOf(rs, n)) + pending[n] == streams[n]
  }

  ghost predicate Known(rs: seq<Record>) {
    forall i :: 0 <= i < |rs| ==> rs[i].node < MAX_NUM_NODES
  }

  /** The records explain the written text, and with the pending texts they hold all that was sent. */
  ghost predicate Explains(flags: nat, maxBuffer: nat, fout: string, rs: seq<Record>, pending: seq<string>,
                           streams: seq<string>) {
    && |pending| == MAX_NUM_NODES == |streams|
    && Known(rs)
    && fout == Render(flags, rs)
    && (forall n :: 0 <= n < |pending| ==> NEWLINE !in pending[n] && |pending[n]| <= maxBuffer)
    && (forall n :: 0 <= n < |pending| ==> Conserved(rs, pending, streams, n))
  }

  lemma RecordText(rs: seq<Record>, r: Record, n: nat)
    ensures Concat(TextsOf(rs + [r], n)) == Concat(TextsOf(rs, n)) + (if n == r.node then r.text else "")
  {
    TextsConcat(rs, [r], n);
    ConcatAppend(TextsOf(rs, n), TextsOf([r], n));
    assert [r][1..] == [];
    assert TextsOf([r], n) == if n == r.node then [r.text] else [];
    assert Concat([r.text]) == r.text + "";
  }

  lemma LinesText(rs: seq<Record>, node: nat, ls: seq<string>, n: nat)
    ensures Concat(TextsOf(rs + Of(node, ls), n)) == Concat(TextsOf(rs, n)) + (if n == node then Concat(ls) else "")
  {
    TextsConcat(rs, Of(node, ls), n);
    TextsOfNode(ls, node, n);
    ConcatAppend(TextsOf(rs, n), if n == node then ls else []);
  }

  /** Emitting the complete lines of a node's text keeps everything explained. */
  lemma ExplainLines(flags: nat, maxBuffer: nat, fout: string, rs: seq<Record>, pending: seq<string>,
                     streams: seq<string>, node: nat, buffer: string)
    requires Explains(flags, maxBuffer, fout, rs, pending, streams) && node < MAX_NUM_NODES
    requires |Rest(pending[node] + buffer)| <= maxBuffer
    ensures var s := pending[node] + buffer;
            Explains(flags, maxBuffer, fout + Render(flags, Of(node, Lines(s))), rs + Of(node, Lines(s)),
                     pending[node := Rest(s)], streams[node := streams[node] + buffer])
  {
    hide Render, Lines, Rest, TextsOf, Concat;
    var s := pending[node] + buffer;
    RenderConcat(flags, rs, Of(node, Lines(s)));
    RestClean(s);
    LinesConserve(s);
    var rs', pending', streams' := rs + Of(node, Lines(s)), pending[node := Rest(s)],
      streams[node := streams[node] + buffer];
    forall n | 0 <= n < |pending|
      ensures Conserved(rs', pending', streams', n)
    {
      LinesText(rs, node, Lines(s), n);
      assert Conserved(rs, pending, streams, n);
      var was := Concat(TextsOf(rs, n));
      if n == node {
        assert (was + Concat(Lines(s))) + Rest(s) == was + (Concat(Lines(s)) + Rest(s));
        assert was + (pending[node] + buffer) == (was + pending[node]) + buffer;
      } else {
        assert was + "" == was;
      }
    }
  }

  /** So does emitting the pending text bare to make room. */
  lemma ExplainOverflow(flags: nat, maxBuffer: nat, fout: string, rs: seq<Record>, pending: seq<string>,
                        streams: seq<string>, node: nat, buffer: string)
    requires Explains(flags, maxBuffer, fout, rs, pending, streams) && node < MAX_NUM_NODES
    requires NEWLINE !in buffer && |buffer| <= maxBuffer
    ensures Explains(flags, maxBuffer, fout + pending[node], rs + [Record(node, pending[node], false)],
                     pending[node := buffer], streams[node := streams[node] + buffer])
  {
    hide TextsOf, Concat, MarkFor;
    var r := Record(node, pending[node], false);
    RenderConcat(flags, rs, [r]);
    assert [r][1..] == [];
    assert Render(flags, [r]) == "" + r.text + "";
    hide Render;
    var rs', pending', streams' := rs + [r], pending[node := buffer], streams[node := streams[node] + buffer];
    forall n | 0 <= n < |pending|
      ensures Conserved(rs', pending', streams', n)
    {
      RecordText(rs, r, n);
      assert Conserved(rs, pending, streams, n);
      assert Concat(TextsOf(rs, n)) + "" == Concat(TextsOf(rs, n));
    }
  }

  // ----- the merger -----

  /** No line is longer than the buffer: neither a complete one nor an unfinished one. */
  ghost predicate Short(s: string, maxBuffer: nat) {
    forall i, j {:trigger s[i..j]} :: 0 <= i <= j <= |s| && NEWLINE !in s[i..j] ==> j - i <= maxBuffer
  }

  lemma {:induction false} StreamConcat(es: seq<Event>, fs: seq<Event>, n: nat)
    ensures StreamOf(es + fs, n) == StreamOf(es, n) + StreamOf(fs, n)
    decreases |es|
  {
    if es == [] {
      assert es + fs == fs;
    } else {
      StreamConcat(es[1..], fs, n);
      assert (es + fs)[1..] == es[1..] + fs && (es + fs)[0] == es[0];
      var first, later := if es[0].node == n then es[0].chunk else "", StreamOf(es[1..], n);
      assert first + (later + StreamOf(fs, n)) == (first + later) + StreamOf(fs, n);
    }
  }

  lemma {:induction false} TakeConcat(m: Merge, es: seq<Event>, fs: seq<Event>, maxBuffer: nat)
    requires forall i :: 0 <= i < |es| ==> es[i].node < |m.pending|
    requires forall i :: 0 <= i < |fs| ==> fs[i].node < |m.pending|
    ensures TakeAll(m, es + fs, maxBuffer) == TakeAll(TakeAll(m, es, maxBuffer), fs, maxBuffer)
    decreases |es|
  {
    if es == [] {
      assert es + fs == fs;
    } else {
      var n := Take(m, es[0], maxBuffer);
      assert |n.pending| == |m.pending|;
      hide Take;
      TakeConcat(n, es[1..], fs, maxBuffer);
      assert (es + fs)[1..] == es[1..] + fs;
    }
  }

  lemma TakeOne(m: Merge, es: seq<Event>, e: Event, maxBuffer: nat)
    requires (forall i :: 0 <= i < |es| ==> es[i].node < |m.pending|) && e.node < |m.pending|
    ensures TakeAll(m, es + [e], maxBuffer) == Take(TakeAll(m, es, maxBuffer), e, maxBuffer)
  {
    hide Take;
    TakeConcat(m, es, [e], maxBuffer);
    assert [e][1..] == [];
  }

  /** A text that outgrows the buffer shows a long line in the stream. */
  lemma ShortFits(done: string, p: string, chunk: string, later: string, maxBuffer: nat)
    requires NEWLINE !in p && NEWLINE !in chunk && Short(done + p + chunk + later, maxBuffer)
    ensures |p| + |chunk| <= maxBuffer
  {
    var s := done + p + chunk + later;
    var i, j := |done|, |done| + |p| + |chunk|;
    assert s[i..j] == p + chunk;
  }

  // ----- when the file does not depend on the chunks -----

  /** Chunks that the master can receive. */
  ghost predicate Legal(es: seq<Event>, maxBuffer: nat) {
    forall i :: 0 <= i < |es| ==> es[i].node < MAX_NUM_NODES && |es[i].chunk| <= maxBuffer
  }

  /** Every record is one whole line, and can get its node's mark. */
  ghost predicate AllWhole(rs: seq<Record>) {
    forall i :: 0 <= i < |rs| ==> rs[i].marked && IsLine(rs[i].text)
  }

  lemma {:induction false} ArriveWhole(m: Merge, es: seq<Event>)
    requires (forall i :: 0 <= i < |es| ==> es[i].node < |m.pending|) && AllWhole(m.records)
    ensures AllWhole(ArriveAll(m, es).records)
    decreases |es|
  {
    hide Lines, Rest, IsLine;
    if es != [] {
      var s := m.pending[es[0].node] + es[0].chunk;
      forall i | 0 <= i < |Lines(s)| ensures IsLine(Lines(s)[i]) {
        LineShape(s, i);
      }
      ArriveWhole(Arrive(m, es[0]), es[1..]);
    }
  }

  lemma ShortPrefix(s: string, t: string, maxBuffer: nat)
    requires Short(s + t, maxBuffer)
    ensures Short(s, maxBuffer)
  {
    forall i, j | 0 <= i <= j <= |s| && NEWLINE !in s[i..j] ensures j - i <= maxBuffer {
      assert (s + t)[i..j] == s[i..j];
    }
  }

  lemma {:induction false} ArriveOne(m: Merge, es: seq<Event>, e: Event)
    requires (forall i :: 0 <= i < |es| ==> es[i].node < |m.pending|) && e.node < |m.pending|
    ensures ArriveAll(m, es + [e]) == Arrive(ArriveAll(m, es), e)
    decreases |es|
  {
    if es == [] {
      assert ([] + [e])[1..] == [];
    } else {
      var n := Arrive(m, es[0]);
      assert |n.pending| == |m.pending|;
      hide Arrive;
      ArriveOne(n, es[1..], e);
      assert (es + [e])[1..] == es[1..] + [e];
    }
  }

  /** Without lines longer than the buffer nothing is ever sent out bare. */
  lemma {:induction false} ShortTakes(es: seq<Event>, maxBuffer: nat)
    requires Legal(es, maxBuffer) && forall n :: 0 <= n < MAX_NUM_NODES ==> Short(StreamOf(es, n), maxBuffer)
    ensures TakeAll(Empty(), es, maxBuffer) == ArriveAll(Empty(), es)
    decreases |es|
  {
    hide Lines, Rest, Short, Arrive, TextsOf, Concat;
    if es != [] {
      var k := |es| - 1;
      var pre, e := es[..k], es[k];
      assert es == pre + [e];
      forall n | 0 <= n < MAX_NUM_NODES ensures Short(StreamOf(pre, n), maxBuffer) {
        StreamConcat(pre, [e], n);
        ShortPrefix(StreamOf(pre, n), StreamOf([e], n), maxBuffer);
      }
      ShortTakes(pre, maxBuffer);
      TakeOne(Empty(), pre, e, maxBuffer);
      ArriveOne(Empty(), pre, e);
      if NEWLINE !in e.chunk {
        NextFits(pre, e, maxBuffer);
      }
    }
  }

  lemma NextFits(pre: seq<Event>, e: Event, maxBuffer: nat)
    requires Legal(pre + [e], maxBuffer) && e.node < MAX_NUM_NODES && NEWLINE !in e.chunk
    requires forall i :: 0 <= i < |pre| ==> pre[i].node < MAX_NUM_NODES
    requires Short(StreamOf(pre + [e], e.node), maxBuffer)
    ensures |ArriveAll(Empty(), pre).pending[e.node]| + |e.chunk| <= maxBuffer
  {
    hide Lines, Rest, Short, Arrive, TextsOf, Concat;
    var s := StreamOf(pre, e.node);
    ChunkingIrrelevant(Empty(), pre, e.node);
    assert "" + s == s;
    StreamConcat(pre, [e], e.node);
    assert [e][1..] == [];
    assert StreamOf([e], e.node) == e.chunk + "";
    assert e.chunk + "" == e.chunk && StreamOf(pre + [e], e.node) == s + e.chunk;
    LinesConserve(s);
    RestClean(s);
    assert Concat(Lines(s)) + Rest(s) + e.chunk + "" == s + e.chunk;
    ShortFits(Concat(Lines(s)), Rest(s), e.chunk, "", maxBuffer);
  }

  // ----- and only then -----

  ghost predicate AllMarked(rs: seq<Record>) {
    forall i :: 0 <= i < |rs| ==> rs[i].marked
  }

  lemma {:induction false} RecordsKept(m: Merge, es: seq<Event>, maxBuffer: nat)
    requires forall i :: 0 <= i < |es| ==> es[i].node < |m.pending|
    ensures m.records <= TakeAll(m, es, maxBuffer).records
    decreases |es|
  {
    hide Lines, Rest;
    if es != [] {
      RecordsKept(Take(m, es[0], maxBuffer), es[1..], maxBuffer);
    }
  }

  lemma TakeMarked(m: Merge, e: Event, maxBuffer: nat)
    requires e.node < |m.pending| && AllMarked(Take(m, e, maxBuffer).records)
    ensures Take(m, e, maxBuffer) == Arrive(m, e)
  {
    hide Lines, Rest;
    var r := Record(e.node, m.pending[e.node], false);
    assert (m.records + [r])[|m.records|] == r;
  }

  /** When nothing was sent out bare, the buffer made no difference. */
  lemma {:induction false} MarkedArrives(m: Merge, es: seq<Event>, maxBuffer: nat)
    requires forall i :: 0 <= i < |es| ==> es[i].node < |m.pending|
    requires AllMarked(TakeAll(m, es, maxBuffer).records)
    ensures TakeAll(m, es, maxBuffer) == ArriveAll(m, es)
    decreases |es|
  {
    hide Lines, Rest;
    if es != [] {
      var n := Take(m, es[0], maxBuffer);
      RecordsKept(n, es[1..], maxBuffer);
      MarkedArrives(n, es[1..], maxBuffer);
      assert AllMarked(n.records);
      TakeMarked(m, es[0], maxBuffer);
    }
  }

  /** A stream, one character at a time. */
  function Singles(node: nat, s: string): (es: seq<Event>)
    ensures |es| == |s| && forall i :: 0 <= i < |s| ==> es[i] == Event(node, [s[i]])
  {
    seq(|s|, i requires 0 <= i < |s| => Event(node, [s[i]]))
  }

  function SplitAll(streams: seq<string>, k: nat): (es: seq<Event>)
    requires k <= |streams|
    ensures forall i :: 0 <= i < |es| ==> es[i].node < k && |es[i].chunk| == 1
  {
    if k == 0 then [] else SplitAll(streams, k - 1) + Singles(k - 1, streams[k - 1])
  }

  lemma {:induction false} SinglesStream(node: nat, s: string, n: nat)
    ensures StreamOf(Singles(node, s), n) == if n == node then s else ""
    decreases |s|
  {
    if s != [] {
      SinglesStream(node, s[1..], n);
      assert Singles(node, s)[1..] == Singles(node, s[1..]);
      assert [s[0]] + s[1..] == s;
    }
  }

  lemma {:induction false} SplitStream(streams: seq<string>, k: nat, n: nat)
    requires k <= |streams|
    ensures StreamOf(SplitAll(streams, k), n) == if n < k then streams[n] else ""
  {
    hide StreamOf, Singles;
    NoStream(n);
    if k > 0 {
      SplitStream(streams, k - 1, n);
      SinglesStream(k - 1, streams[k - 1], n);
      JoinStream(SplitAll(streams, k - 1), Singles(k - 1, streams[k - 1]), n);
    }
  }

  lemma NoStream(n: nat)
    ensures StreamOf([], n) == ""
  {
  }

  lemma JoinStream(es: seq<Event>, fs: seq<Event>, n: nat)
    ensures StreamOf(es, n) == "" ==> StreamOf(es + fs, n) == StreamOf(fs, n)
    ensures StreamOf(fs, n) == "" ==> StreamOf(es + fs, n) == StreamOf(es, n)
  {
    hide StreamOf;
    StreamConcat(es, fs, n);
    assert StreamOf(es, n) + "" == StreamOf(es, n) && "" + StreamOf(fs, n) == StreamOf(fs, n);
  }

  lemma {:induction false} SplitPrefix(streams: seq<string>, j: nat, k: nat)
    requires j <= k <= |streams|
    ensures SplitAll(streams, j) <= SplitAll(streams, k)
    decreases k
  {
    if j < k {
      SplitPrefix(streams, j, k - 1);
    }
  }

  ghost predicate Held(m: Merge, maxBuffer: nat) {
    forall n :: 0 <= n < |m.pending| ==> NEWLINE !in m.pending[n] && |m.pending[n]| <= maxBuffer
  }

  lemma TakeHeld(m: Merge, e: Event, maxBuffer: nat)
    requires Held(m, maxBuffer) && e.node < |m.pending| && |e.chunk| == 1 <= maxBuffer
    ensures Held(Take(m, e, maxBuffer), maxBuffer)
  {
    hide Lines, Rest;
    var s := m.pending[e.node] + e.chunk;
    if NEWLINE in e.chunk {
      EndsLine(s);
    } else {
      CleanText(s);
    }
  }

  /** One character at a time the pending texts stay within the buffer. */
  lemma {:induction false} AllHeld(m: Merge, es: seq<Event>, maxBuffer: nat)
    requires Held(m, maxBuffer) && maxBuffer > 0
    requires forall i :: 0 <= i < |es| ==> es[i].node < |m.pending| && |es[i].chunk| == 1
    ensures Held(TakeAll(m, es, maxBuffer), maxBuffer)
    decreases |es|
  {
    if es != [] {
      var n := Take(m, es[0], maxBuffer);
      assert |n.pending| == |m.pending|;
      TakeHeld(m, es[0], maxBuffer);
      hide Take, Held;
      AllHeld(n, es[1..], maxBuffer);
    }
  }

  lemma LongRest(s: string, i: nat, j: nat)
    requires i <= j <= |s| && NEWLINE !in s[i..j]
    ensures |Rest(s[..j])| >= j - i
  {
    hide Lines, Rest;
    var a, b := s[..i], s[i..j];
    assert s[..j] == a + b;
    LinesConcat(a, b);
    RestClean(a);
    CleanText(Rest(a) + b);
  }

  /** The characters up to the end of a long line, after the streams of the nodes before. */
  lemma LongBreaks(streams: seq<string>, node: nat, maxBuffer: nat)
    requires |streams| == MAX_NUM_NODES && node < MAX_NUM_NODES && maxBuffer > 0 && !Short(streams[node], maxBuffer)
    ensures !AllMarked(TakeAll(Empty(), SplitAll(streams, MAX_NUM_NODES), maxBuffer).records)
  {
    hide Rest, AllMarked, SplitAll;
    var s, es := streams[node], SplitAll(streams, MAX_NUM_NODES);
    var i, j :| 0 <= i <= j <= |s| && NEWLINE !in s[i..j] && j - i > maxBuffer;
    var pre := LongPrefix(streams, node, j);
    if AllMarked(TakeAll(Empty(), es, maxBuffer).records) {
      PrefixMarked(pre, es, maxBuffer);
      MarkedArrives(Empty(), pre, maxBuffer);
      ChunkingIrrelevant(Empty(), pre, node);
      assert "" + s[..j] == s[..j];
      LongRest(s, i, j);
      AllHeld(Empty(), pre, maxBuffer);
      assert false;
    }
  }

  lemma LongPrefix(streams: seq<string>, node: nat, j: nat) returns (pre: seq<Event>)
    requires |streams| == MAX_NUM_NODES && node < MAX_NUM_NODES && j <= |streams[node]|
    ensures pre <= SplitAll(streams, MAX_NUM_NODES) && StreamOf(pre, node) == streams[node][..j]
    ensures forall i :: 0 <= i < |pre| ==> pre[i].node < MAX_NUM_NODES && |pre[i].chunk| == 1
  {
    var s, before := streams[node], SplitAll(streams, node);
    pre := before + Singles(node, s[..j]);
    assert SplitAll(streams, node + 1) == before + Singles(node, s);
    assert Singles(node, s[..j]) <= Singles(node, s);
    SplitPrefix(streams, node + 1, MAX_NUM_NODES);
    SplitStream(streams, node, node);
    SinglesStream(node, s[..j], node);
    StreamConcat(before, Singles(node, s[..j]), node);
  }

  lemma PrefixMarked(pre: seq<Event>, es: seq<Event>, maxBuffer: nat)
    requires (forall i :: 0 <= i < |es| ==> es[i].node < MAX_NUM_NODES) && pre <= es
    requires AllMarked(TakeAll(Empty(), es, maxBuffer).records)
    ensures AllMarked(TakeAll(Empty(), pre, maxBuffer).records)
  {
    hide TakeAll;
    var rest := es[|pre|..];
    assert es == pre + rest;
    TakeConcat(Empty(), pre, rest, maxBuffer);
    RecordsKept(TakeAll(Empty(), pre, maxBuffer), rest, maxBuffer);
  }

  /** es are the streams, cut into chunks and interleaved in some way. */
  ghost predicate Splits(es: seq<Event>, streams: seq<string>, maxBuffer: nat) {
    Legal(es, maxBuffer) && forall n :: 0 <= n < |streams| ==> StreamOf(es, n) == streams[n]
  }

  /** However the streams are cut and interleaved, only whole lines are emitted: exactly when no stream
      has a line, finished or not, that is longer than the buffer. */
  lemma WholeIff(streams: seq<string>, maxBuffer: nat)
    requires |streams| == MAX_NUM_NODES && maxBuffer > 0
    ensures (forall es :: Splits(es, streams, maxBuffer) ==> AllWhole(TakeAll(Empty(), es, maxBuffer).records))
            <==> (forall n :: 0 <= n < MAX_NUM_NODES ==> Short(streams[n], maxBuffer))
  {
    hide Short, IsLine, Take, SplitAll;
    if forall n :: 0 <= n < MAX_NUM_NODES ==> Short(streams[n], maxBuffer) {
      forall es | Splits(es, streams, maxBuffer) ensures AllWhole(TakeAll(Empty(), es, maxBuffer).records) {
        ShortTakes(es, maxBuffer);
        ArriveWhole(Empty(), es);
      }
    } else {
      var node :| 0 <= node < MAX_NUM_NODES && !Short(streams[node], maxBuffer);
      var es := SplitAll(streams, MAX_NUM_NODES);
      LongBreaks(streams, node, maxBuffer);
      forall n | 0 <= n < MAX_NUM_NODES ensures StreamOf(es, n) == streams[n] {
        SplitStream(streams, MAX_NUM_NODES, n);
      }
      assert Splits(es, streams, maxBuffer);
    }
  }

  /** One redirected stream: the pending text of each node and what went to the file. The records
      explain the file, and `streams` is all that each node has sent. */
  class Merger {
    const flags: nat
    const maxBuffer: nat
    var pending: seq<string>
    var fout: string
    ghost var records: seq<Record>
    ghost var streams: seq<string>

    ghost predicate Valid()
      reads this
    {
      Explains(flags, maxBuffer, fout, records, pending, streams)
    }

    constructor (flags: nat, maxBuffer: nat)
      ensures Valid() && this.flags == flags && this.maxBuffer == maxBuffer
      ensures fout == "" && records == [] && pending == seq(MAX_NUM_NODES, _ => "") && streams == pending
    {
      this.flags, this.maxBuffer := flags, maxBuffer;
      pending, fout := seq(MAX_NUM_NODES, _ => ""), "";
      records, streams := [], seq(MAX_NUM_NODES, _ => "");
    }

    /** A chunk of output from a node. Unless a line outgrows the buffer, exactly the completed lines
        are emitted; otherwise the pending text goes out bare. Either way no byte is lost. */
    method Emit(node: nat, buffer: string)
      requires Valid() && node < MAX_NUM_NODES && |buffer| <= maxBuffer
      modifies this
      ensures Valid()
      ensures streams == old(streams)[node := old(streams[node]) + buffer]
      ensures Merge(records, pending) == Take(Merge(old(records), old(pending)), Event(node, buffer), maxBuffer)
    {
      hide Lines, Rest, Render, FirstBreak, Mark, Explains;
      assert |pending| == MAX_NUM_NODES == |streams| && NEWLINE !in pending[node] by { Opened(); }
      ghost var s := pending[node] + buffer;
      var found: nat;
      if Ident(flags) {
        found := FindFirst(buffer);
      } else {
        found := FindLast(buffer);
      }
      assert buffer[..|buffer|] == buffer;
      if found < |buffer| {
        var out, rest := WriteLines(flags, node, pending[node], buffer, found);
        ExplainLines(flags, maxBuffer, fout, records, pending, streams, node, buffer);
        records := records + Of(node, Lines(s));
        fout, pending := fout + out, pending[node := rest];
      } else if |pending[node]| + |buffer| > maxBuffer {
        ExplainOverflow(flags, maxBuffer, fout, records, pending, streams, node, buffer);
        records := records + [Record(node, pending[node], false)];
        fout, pending := fout + pending[node], pending[node := buffer];
      } else {
        CleanText(s);
        ExplainLines(flags, maxBuffer, fout, records, pending, streams, node, buffer);
        assert Render(flags, Of(node, [])) == "" by { EmptyRender(flags, node); }
        assert fout + "" == fout && records + Of(node, []) == records;
        pending := pending[node := pending[node] + buffer];
      }
      streams := streams[node := streams[node] + buffer];
    }

    lemma Opened()
      requires Valid()
      ensures |pending| == MAX_NUM_NODES == |streams| && Known(records)
      ensures forall n :: 0 <= n < |pending| ==> NEWLINE !in pending[n] && |pending[n]| <= maxBuffer
      ensures forall n :: 0 <= n < |pending| ==> Conserved(records, pending, streams, n)
    {
    }

    /** The chunks of a whole run. When no node sends a line longer than the buffer, the file holds
        the lines completed by the chunks, in that order, whatever the chunks are, and nothing else. */
    method EmitAll(es: seq<Event>)
      requires Valid() && Merge(records, pending) == Empty() && streams == pending
      requires Legal(es, maxBuffer)
      modifies this
      ensures Valid()
      ensures forall n :: 0 <= n < MAX_NUM_NODES ==> streams[n] == StreamOf(es, n)
      ensures Merge(records, pending) == TakeAll(Empty(), es, maxBuffer)
      ensures (forall n :: 0 <= n < MAX_NUM_NODES ==> Short(StreamOf(es, n), maxBuffer)) ==>
                Merge(records, pending) == ArriveAll(Empty(), es) && AllWhole(records)
    {
      assert AllWhole(Empty().records);
      hide Explains, Short, Take, Arrive, AllWhole;
      assert es[..0] == [];
      for i := 0 to |es|
        invariant Valid() && |streams| == MAX_NUM_NODES == |pending|
        invariant forall n :: 0 <= n < MAX_NUM_NODES ==> streams[n] == StreamOf(es[..i], n)
        invariant Merge(records, pending) == TakeAll(Empty(), es[..i], maxBuffer)
      {
        var e := es[i];
        assert es[..i + 1] == es[..i] + [e];
        forall n: nat
          ensures StreamOf(es[..i + 1], n) == StreamOf(es[..i], n) + (if n == e.node then e.chunk else "")
        {
          StreamConcat(es[..i], [e], n);
          assert [e][1..] == [];
        }
        TakeOne(Empty(), es[..i], e, maxBuffer);
        Emit(e.node, e.chunk);
        Opened();
      }
      assert es[..|es|] == es;
      if forall n :: 0 <= n < MAX_NUM_NODES ==> Short(StreamOf(es, n), maxBuffer) {
        ShortTakes(es, maxBuffer);
        ArriveWhole(Empty(), es);
      }
    }

    /** At the end the leftovers are written, each on a line of its own. */
    method Flush()
      requires Valid()
      modifies this`pending, this`fout
      ensures fout == old(fout) + Leftovers(flags, old(pending), 0)
      ensures pending == seq(MAX_NUM_NODES, _ => "")
    {
      hide Mark, Leftovers, Explains;
      assert |pending| == MAX_NUM_NODES by { Opened(); }
      for node := 0 to MAX_NUM_NODES
        invariant |pending| == MAX_NUM_NODES
        invariant forall n :: 0 <= n < node ==> pending[n] == ""
        invariant forall n :: node <= n < MAX_NUM_NODES ==> pending[n] == old(pending)[n]
        invariant fout + Leftovers(flags, old(pending), node) == old(fout) + Leftovers(flags, old(pending), 0)
      {
        LeftoverStep(flags, old(pending), node, fout);
        if |pending[node]| > 0 {
          if flags != 0 {
            fout := fout + Mark(node, Alternate(flags));
          }
          fout, pending := fout + pending[node], pending[node := ""];
          fout := fout + [NEWLINE];
        }
      }
      assert Leftovers(flags, old(pending), MAX_NUM_NODES) == "" by {
        NothingLeft(flags, old(pending), MAX_NUM_NODES);
      }
      assert fout + "" == fout;
    }
  }

  lemma EmptyRender(flags: nat, node: nat)
    requires node < 100
    ensures Render(flags, Of(node, [])) == ""
  {
  }

  // ----- the final flush -----

  /** The text the flush writes for the nodes from `node` on: the code tests all flags, not IDENT. */
  function Leftovers(flags: nat, pending: seq<string>, node: nat): string
    requires node <= |pending| <= 100
    decreases |pending| - node
  {
    if node == |pending| then ""
    else (if pending[node] == "" then ""
          else (if flags != 0 then Mark(node, Alternate(flags)) else "") + pending[node] + [NEWLINE])
         + Leftovers(flags, pending, node + 1)
  }

  /** What a pass of the flush loop writes brings the leftovers of the next node to the front. */
  lemma LeftoverStep(flags: nat, pending: seq<string>, node: nat, fout: string)
    requires node < |pending| <= 100
    ensures var marked := if flags != 0 then fout + Mark(node, Alternate(flags)) else fout;
            var now := if pending[node] == "" then fout else marked + pending[node] + [NEWLINE];
            now + Leftovers(flags, pending, node + 1) == fout + Leftovers(flags, pending, node)
  {
    hide Mark;
    var mark, rest := if flags != 0 then Mark(node, Alternate(flags)) else "", Leftovers(flags, pending, node + 1);
    if pending[node] == "" {
      assert "" + rest == rest;
    } else {
      assert fout + "" == fout;
      var line := mark + pending[node] + [NEWLINE];
      assert fout + mark + pending[node] + [NEWLINE] == fout + line;
      assert (fout + line) + rest == fout + (line + rest);
    }
  }

  /** The leftovers as records: each unfinished line, finished. */
  function Finished(pending: seq<string>, node: nat): (rs: seq<Record>)
    requires node <= |pending| <= 100
    ensures forall i :: 0 <= i < |rs| ==> rs[i].node < 100
    decreases |pending| - node
  {
    if node == |pending| then []
    else (if pending[node] == "" then [] else [Record(node, pending[node] + [NEWLINE], true)])
         + Finished(pending, node + 1)
  }

  predicate Marks(flags: nat) {
    flags == 0 || Ident(flags)
  }

  lemma OneFinished(flags: nat, pending: seq<string>, node: nat)
    requires node < |pending| <= 100 && pending[node] != ""
    ensures Render(flags, Finished(pending, node)) ==
            MarkFor(flags, node) + (pending[node] + [NEWLINE]) + Render(flags, Finished(pending, node + 1))
    ensures Leftovers(flags, pending, node) ==
            (if flags != 0 then Mark(node, Alternate(flags)) else "") + pending[node] + [NEWLINE]
            + Leftovers(flags, pending, node + 1)
  {
    hide Mark, MarkFor;
    var r := Record(node, pending[node] + [NEWLINE], true);
    assert ([r] + Finished(pending, node + 1))[1..] == Finished(pending, node + 1);
  }

  lemma NoneFinished(flags: nat, pending: seq<string>, node: nat)
    requires node < |pending| <= 100 && pending[node] == ""
    ensures Finished(pending, node) == Finished(pending, node + 1)
    ensures Leftovers(flags, pending, node) == Leftovers(flags, pending, node + 1)
  {
  }

  lemma MarkLong(node: nat, alternate: bool)
    requires node < 100
    ensures |Mark(node, alternate)| > 0
  {
  }

  lemma {:induction false} LeftoversMarked(flags: nat, pending: seq<string>, node: nat)
    requires node <= |pending| <= 100 && Marks(flags)
    ensures Leftovers(flags, pending, node) == Render(flags, Finished(pending, node))
    decreases |pending| - node
  {
    hide Mark, Render, Finished, Leftovers;
    if node < |pending| {
      LeftoversMarked(flags, pending, node + 1);
      if pending[node] == "" {
        NoneFinished(flags, pending, node);
      } else {
        OneFinished(flags, pending, node);
        var rest := Leftovers(flags, pending, node + 1);
        Reassociate(MarkFor(flags, node), pending[node], [NEWLINE], rest);
      }
    } else {
      NothingLeft(flags, pending, node);
    }
  }

  lemma {:induction false} LeftoversLonger(flags: nat, pending: seq<string>, node: nat)
    requires node <= |pending| <= 100 && !Marks(flags)
    ensures |Leftovers(flags, pending, node)| >= |Render(flags, Finished(pending, node))|
    ensures (exists n :: node <= n < |pending| && pending[n] != "") ==>
              |Leftovers(flags, pending, node)| > |Render(flags, Finished(pending, node))|
    decreases |pending| - node
  {
    hide Mark, Render, Finished;
    if node < |pending| {
      LeftoversLonger(flags, pending, node + 1);
      if pending[node] == "" {
        NoneFinished(flags, pending, node);
      } else {
        OneFinished(flags, pending, node);
        assert MarkFor(flags, node) == "";
        MarkLong(node, Alternate(flags));
      }
    } else {
      NothingLeft(flags, pending, node);
    }
  }

  /** The flush treats the leftovers like any other line exactly when the flags are all clear or
      IDENT is set, or nothing is left over: with other flags alone it writes marks nobody asked for. */
  lemma FlushMarksIff(flags: nat, pending: seq<string>)
    requires |pending| <= 100
    ensures Leftovers(flags, pending, 0) == Render(flags, Finished(pending, 0)) <==>
            Marks(flags) || (forall n :: 0 <= n < |pending| ==> pending[n] == "")
  {
    hide Leftovers, Render, Finished;
    if Marks(flags) {
      LeftoversMarked(flags, pending, 0);
    } else {
      LeftoversLonger(flags, pending, 0);
      if forall n :: 0 <= n < |pending| ==> pending[n] == "" {
        NothingLeft(flags, pending, 0);
      }
    }
  }

  /** With an exit mode as the only flag, a leftover of node 0 is marked although no line before it was. */
  lemma FlushMarksExtra()
    ensures var pending := ["x"];
            !Ident(8) && Leftovers(8, pending, 0) == "00:x\n" && Render(8, Finished(pending, 0)) == "x\n"
  {
    var pending, r := ["x"], Record(0, "x\n", true);
    assert Leftovers(8, pending, 1) == "" && Finished(pending, 1) == [];
    assert pending[0] + [NEWLINE] == "x\n";
    assert Finished(pending, 0) == [r];
    assert [r][1..] == [];
    assert Mark(0, false) == "00:";
  }

  lemma {:induction false} NothingLeft(flags: nat, pending: seq<string>, node: nat)
    requires node <= |pending| <= 100 && forall n :: node <= n < |pending| ==> pending[n] == ""
    ensures Leftovers(flags, pending, node) == "" && Finished(pending, node) == []
            && Render(flags, Finished(pending, node)) == ""
    decreases |pending| - node
  {
    if node < |pending| {
      NothingLeft(flags, pending, node + 1);
    }
  }
}

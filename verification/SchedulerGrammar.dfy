/** Which texts the reader of the scheduling option accepts, and what they mean. */
module SchedulerGrammar {
  import opened Options
  import opened SchedulerOption

  // ----- the texts -----

  datatype Sign = Bare | Plus | Minus {
    function Text(): string {
      match this
      case Bare => ""
      case Plus => "+"
      case Minus => "-"
    }
  }

  /** Spaces, a sign, digits. */
  datatype Numeral = Numeral(spaces: string, sign: Sign, digits: string) {
    predicate Valid() {
      && (forall i :: 0 <= i < |spaces| ==> IsSpace(spaces[i]))
      && |digits| > 0
      && (forall i :: 0 <= i < |digits| ==> IsDigit(digits[i]))
    }

    function Text(): string {
      spaces + sign.Text() + digits
    }

    /** The number, cut to what 64 signed bits hold. */
    function Value(): int
      requires Valid()
    {
      if sign == Minus then
        if Number(digits) > TWO63 then 0 - TWO63 else 0 - Number(digits)
      else
        if Number(digits) >= TWO63 then TWO63 - 1 else Number(digits)
    }
  }

  datatype Unit = Second | Milli | Micro | Percent

  function UnitText(u: Unit): string {
    match u
    case Second => ""
    case Milli => "m"
    case Micro => "u"
    case Percent => "%"
  }

  datatype Param = Param(number: Numeral, unit: Unit) {
    /** Units stand with a deadline only, and a percentage in its first parameter only. */
    predicate Valid(deadline: bool, first: bool) {
      && number.Valid()
      && (if deadline then unit == Percent ==> first else unit == Second)
    }

    function Text(): string {
      "," + number.Text() + UnitText(unit)
    }

    /** With a deadline, microseconds; the percentage is left for the end. */
    function Value(deadline: bool): nat
      requires number.Valid()
    {
      if deadline && unit == Second then Wrap(number.Value() * 1_000_000)
      else if deadline && unit == Milli then Wrap(number.Value() * 1000)
      else Wrap(number.Value())
    }
  }

  datatype Head = ByNumber(number: Numeral) | ByName(known: int) {
    predicate Valid() {
      match this
      case ByNumber(n) => n.Valid()
      case ByName(p) => Known(p)
    }

    function Text(): string
      requires Valid()
    {
      match this
      case ByNumber(n) => n.Text()
      case ByName(p) => Name(p)
    }

    function Policy(): int
      requires Valid()
    {
      match this
      case ByNumber(n) => IntCast(n.Value())
      case ByName(p) => p
    }
  }

  /** A policy and up to three parameters. */
  datatype Phrase = Phrase(head: Head, params: seq<Param>) {
    predicate Valid() {
      head.Valid() && |params| <= 3 && ParamsValid(params, head.Policy() == DEADLINE, 0)
    }

    function Text(): string
      requires Valid()
    {
      head.Text() + Tail(params)
    }

    /** What the phrase makes of an option that was set before. */
    function Meaning(o: Opt): Opt
      requires Valid()
    {
      var p := o.(policy := head.Policy());
      var deadline := p.policy == DEADLINE;
      if params == [] then Defaults(p)
      else
        var q := PutParams(p, params, deadline, 0);
        if params[0].unit == Percent then q.(p0 := Wrap(q.p0 * q.p2) / 100) else q
    }
  }

  predicate ParamsValid(params: seq<Param>, deadline: bool, k: nat) {
    forall i :: 0 <= i < |params| ==> params[i].Valid(deadline, k + i == 0)
  }

  function Tail(params: seq<Param>): string {
    if params == [] then "" else params[0].Text() + Tail(params[1..])
  }

  /** The parameters from the k-th on. */
  function PutParams(o: Opt, params: seq<Param>, deadline: bool, k: nat): Opt
    requires ParamsValid(params, deadline, k)
    decreases |params|
  {
    if params == [] then o
    else
      var n := params[0].Value(deadline);
      assert ParamsValid(params[1..], deadline, k + 1) by {
        assert forall i :: 0 <= i < |params| - 1 ==> params[1..][i] == params[i + 1];
      }
      var q := if k == 0 then o.(p0 := n) else if k == 1 then o.(p1 := n) else o.(p2 := n);
      PutParams(q, params[1..], deadline, k + 1)
  }

  // ----- numerals -----

  /** Text t stands in s from i on. */
  predicate At(s: string, i: nat, t: string) {
    i + |t| <= |s| && s[i..i + |t|] == t
  }

  lemma AtConcat(s: string, i: nat, t: string, u: string)
    requires At(s, i, t + u)
    ensures At(s, i, t) && At(s, i + |t|, u)
  {
    assert s[i..i + |t|] == (t + u)[..|t|];
    assert s[i + |t|..i + |t| + |u|] == (t + u)[|t|..];
  }

  lemma AtChar(s: string, i: nat, t: string, j: nat)
    requires At(s, i, t) && j < |t|
    ensures s[i + j] == t[j]
  {
    assert s[i..i + |t|][j] == s[i + j];
  }

  lemma {:induction false} SkipAllSpaces(s: string, i: nat, e: nat)
    requires i <= e <= |s| && (forall j :: i <= j < e ==> IsSpace(s[j])) && (e < |s| ==> !IsSpace(s[e]))
    ensures SkipSpaces(s, i) == e
    decreases e - i
  {
    if i < e {
      SkipAllSpaces(s, i + 1, e);
    }
  }

  /** Spaces up to k, the sign up to d, digits up to e. */
  ghost predicate Stands(s: string, i: nat, k: nat, sign: Sign, d: nat, e: nat) {
    && i <= k <= d < e <= |s|
    && d == k + |sign.Text()|
    && (sign == Plus ==> s[k] == '+')
    && (sign == Minus ==> s[k] == '-')
    && (forall j :: i <= j < k ==> IsSpace(s[j]))
    && (forall j :: d <= j < e ==> IsDigit(s[j]))
  }

  lemma NumeralStands(s: string, i: nat, n: Numeral)
    requires n.Valid() && At(s, i, n.Text())
    ensures var k := i + |n.spaces|; var d := k + |n.sign.Text()|; var e := d + |n.digits|;
            Stands(s, i, k, n.sign, d, e) && e == i + |n.Text()| && s[d..e] == n.digits
  {
    var sign := n.sign.Text();
    AtConcat(s, i, n.spaces + sign, n.digits);
    AtConcat(s, i, n.spaces, sign);
    var k := i + |n.spaces|;
    var d := k + |sign|;
    forall j | i <= j < k ensures IsSpace(s[j]) {
      AtChar(s, i, n.spaces, j - i);
    }
    forall j | d <= j < d + |n.digits| ensures IsDigit(s[j]) {
      AtChar(s, d, n.digits, j - d);
    }
    if n.sign != Bare {
      AtChar(s, k, sign, 0);
    }
  }

  /** Where the digits start, as strtol finds it. */
  function DigitsFrom(s: string, i: nat): (d: nat)
    requires i <= |s|
    ensures i <= d <= |s|
  {
    var k := SkipSpaces(s, i);
    if k < |s| && (s[k] == '-' || s[k] == '+') then k + 1 else k
  }

  lemma DigitsFound(s: string, i: nat, k: nat, sign: Sign, d: nat, e: nat)
    requires Stands(s, i, k, sign, d, e)
    ensures SkipSpaces(s, i) == k && DigitsFrom(s, i) == d
  {
    hide SkipSpaces, SkipDigits;
    assert IsDigit(s[d]);
    SkipAllSpaces(s, i, k);
  }

  lemma StrtolParts(s: string, i: nat)
    requires i <= |s|
    ensures var k, d := SkipSpaces(s, i), DigitsFrom(s, i);
            var e := SkipDigits(s, d);
            if e == d then Strtol(s, i) == (0, i)
            else
              var n := Number(s[d..e]);
              Strtol(s, i) == (Clamp(if k < |s| && s[k] == '-' then 0 - n else n), e)
  {
    hide SkipSpaces, SkipDigits, Number, Clamp;
  }

  /** A numeral is read to its end, when no more digits follow. */
  lemma ReadNumeral(s: string, i: nat, n: Numeral)
    requires n.Valid() && At(s, i, n.Text())
    requires var e := i + |n.Text()|; e < |s| ==> !IsDigit(s[e])
    ensures Strtol(s, i) == (n.Value(), i + |n.Text()|)
  {
    hide SkipSpaces, SkipDigits, Number, Strtol, Numeral.Text, DigitsFrom, Stands, Sign.Text;
    var k := i + |n.spaces|;
    var d := k + |n.sign.Text()|;
    var e := d + |n.digits|;
    NumeralStands(s, i, n);
    DigitsFound(s, i, k, n.sign, d, e);
    DigitsEnd(s, i, k, n.sign, d, e);
    StrtolParts(s, i);
    SignFound(s, i, k, n.sign, d, e);
  }

  lemma DigitsEnd(s: string, i: nat, k: nat, sign: Sign, d: nat, e: nat)
    requires Stands(s, i, k, sign, d, e) && (e < |s| ==> !IsDigit(s[e]))
    ensures d < e && SkipDigits(s, d) == e
  {
    SkipExactly(s, d, e);
  }

  lemma SignFound(s: string, i: nat, k: nat, sign: Sign, d: nat, e: nat)
    requires Stands(s, i, k, sign, d, e)
    ensures k < |s| && (s[k] == '-' <==> sign == Minus)
  {
    assert IsDigit(s[d]);
  }

  lemma SpacesSkipped(s: string, i: nat)
    requires i <= |s|
    ensures var k := SkipSpaces(s, i); (forall j :: i <= j < k ==> IsSpace(s[j]))
    decreases |s| - i
  {
    if i < |s| && IsSpace(s[i]) {
      SpacesSkipped(s, i + 1);
    }
  }

  /** What is read as a number is a numeral, and no digit follows it. */
  lemma NumeralRead(s: string, i: nat) returns (n: Numeral)
    requires i <= |s| && Strtol(s, i).1 != i
    ensures var e := Strtol(s, i).1; n.Valid() && s[i..e] == n.Text() && (e < |s| ==> !IsDigit(s[e]))
  {
    hide SkipSpaces, SkipDigits, Number, Strtol, Clamp;
    var k, d := SkipSpaces(s, i), DigitsFrom(s, i);
    var e := SkipDigits(s, d);
    StrtolParts(s, i);
    SpacesSkipped(s, i);
    var sign := if d == k then Bare else if s[k] == '-' then Minus else Plus;
    n := Numeral(s[i..k], sign, s[d..e]);
    assert s[k..d] == sign.Text();
    assert s[i..e] == s[i..k] + s[k..d] + s[d..e];
  }

  // ----- parameters -----

  lemma {:induction false} WrapTimes(n: int, f: nat)
    ensures Wrap(Wrap(n) * f) == Wrap(n * f)
  {
    var q := n / TWO64;
    assert n == q * TWO64 + Wrap(n);
    assert n * f == (q * f) * TWO64 + Wrap(n) * f;
    ModShift(Wrap(n) * f, q * f);
  }

  lemma ModShift(a: int, q: int)
    ensures Wrap(q * TWO64 + a) == Wrap(a)
  {
    var b := q * TWO64 + a;
    assert a == (a / TWO64) * TWO64 + Wrap(a);
    assert b == (a / TWO64 + q) * TWO64 + Wrap(a);
    Remainder(b, a / TWO64 + q, Wrap(a));
  }

  lemma Remainder(b: int, q: int, r: nat)
    requires r < TWO64 && b == q * TWO64 + r
    ensures b % TWO64 == r
  {
    var p := b / TWO64;
    assert b == p * TWO64 + b % TWO64;
    assert (q - p) * TWO64 == b % TWO64 - r;
  }

  /** What comes at e does not belong to parameter p. */
  predicate Ends(s: string, e: nat, p: Param, deadline: bool, first: bool) {
    e < |s| && p.unit == Second ==>
      !IsDigit(s[e]) && (deadline ==> s[e] != 'u' && s[e] != 'm' && (first ==> s[e] != '%'))
  }

  /** A parameter is read to its end. */
  lemma ReadParam(r: Reading, s: string, k: nat, p: Param)
    requires r.ok && p.Valid(r.opt.policy == DEADLINE, k == 0) && At(s, r.at, p.Text())
    requires Ends(s, r.at + |p.Text()|, p, r.opt.policy == DEADLINE, k == 0)
    ensures ReadNext(r, s, k) ==
            Reading(Put(r.opt, k, p.Value(r.opt.policy == DEADLINE)), r.at + |p.Text()|,
                    r.per || p.unit == Percent, true)
  {
    hide Strtol, Numeral.Text, Numeral.Value, Numeral.Valid, Wrap, Put;
    var unit := UnitText(p.unit);
    var n := p.number;
    var b := r.at + 1 + |n.Text()|;
    ParamStands(s, r.at, p);
    NotEmpty(n);
    ReadNumeral(s, r.at + 1, n);
    WrapTimes(n.Value(), 1000);
    WrapTimes(n.Value(), 1_000_000);
  }

  lemma ParamStands(s: string, i: nat, p: Param)
    requires At(s, i, p.Text())
    ensures var b := i + 1 + |p.number.Text()|;
            && s[i] == ',' && At(s, i + 1, p.number.Text())
            && b + |UnitText(p.unit)| == i + |p.Text()| <= |s|
            && (p.unit != Second ==> b < |s| && s[b] == UnitText(p.unit)[0])
  {
    hide Numeral.Text;
    var unit := UnitText(p.unit);
    AtConcat(s, i, "," + p.number.Text(), unit);
    AtConcat(s, i, ",", p.number.Text());
    AtChar(s, i, ",", 0);
    if p.unit != Second {
      AtChar(s, i + 1 + |p.number.Text()|, unit, 0);
    }
  }

  lemma NotEmpty(n: Numeral)
    requires n.Valid()
    ensures |n.Text()| > 0
  {
  }

  /** What is read as a parameter is one. */
  lemma ParamRead(r: Reading, s: string, k: nat) returns (p: Param)
    requires r.ok && r.at < |s| && ReadNext(r, s, k).ok
    ensures p.Valid(r.opt.policy == DEADLINE, k == 0)
    ensures var e := ReadNext(r, s, k).at;
            r.at <= e && s[r.at..e] == p.Text() && Ends(s, e, p, r.opt.policy == DEADLINE, k == 0)
  {
    hide Strtol, Numeral.Text, Numeral.Valid;
    var n := NumeralRead(s, r.at + 1);
    var b := Strtol(s, r.at + 1).1;
    var e := ReadNext(r, s, k).at;
    var unit := if e == b then Second else if s[b] == 'u' then Micro else if s[b] == 'm' then Milli else Percent;
    p := Param(n, unit);
    assert s[r.at..b] == [','] + s[r.at + 1..b];
    assert e != b ==> e == b + 1 && s[r.at..e] == s[r.at..b] + [s[b]];
  }

  // ----- the policy -----

  lemma ReadHead(o: Opt, h: Head, rest: string)
    requires h.Valid() && (rest != [] ==> rest[0] == ',')
    ensures ReadPolicy(o, h.Text() + rest) == Reading(o.(policy := h.Policy()), |h.Text()|, false, true)
  {
    hide Strtol, Numeral.Text, Numeral.Value, Numeral.Valid;
    var s := h.Text() + rest;
    assert s[0..|h.Text()|] == h.Text();
    match h
    case ByNumber(n) =>
      NotEmpty(n);
      ReadNumeral(s, 0, n);
    case ByName(p) =>
      NoNumber(s, p);
      NamedHead(o, s, p);
  }

  lemma NoNumber(s: string, policy: int)
    requires Known(policy) && At(s, 0, Name(policy))
    ensures Strtol(s, 0).1 == 0
  {
    AtChar(s, 0, Name(policy), 0);
  }

  lemma NamedHead(o: Opt, s: string, policy: int)
    requires Known(policy) && At(s, 0, Name(policy)) && Strtol(s, 0).1 == 0
    ensures ReadPolicy(o, s) == Reading(o.(policy := policy), |Name(policy)|, false, true)
  {
    hide Strtol;
    AtChar(s, 0, Name(policy), 0);
    FirstLetter(s, "OTHER");
    FirstLetter(s, "DEADLINE");
    FirstLetter(s, "FIFO");
    FirstLetter(s, "BATCH");
    FirstLetter(s, "IDLE");
  }

  lemma HeadRead(o: Opt, s: string) returns (h: Head)
    requires ReadPolicy(o, s).ok
    ensures h.Valid() && s[..ReadPolicy(o, s).at] == h.Text() && ReadPolicy(o, s).opt.policy == h.Policy()
  {
    hide Strtol, Numeral.Text, Numeral.Valid, Numeral.Value;
    if Strtol(s, 0).1 != 0 {
      var n := NumeralRead(s, 0);
      ReadNumeral(s, 0, n);
      h := ByNumber(n);
    } else {
      h := ByName(ReadPolicy(o, s).opt.policy);
    }
  }

  // ----- whole texts -----

  function ReadRest(r: Reading, s: string, k: nat): (t: Reading)
    requires r.at <= |s| && k <= 3
    ensures t.at <= |s|
    decreases 3 - k
  {
    if k == 3 then r else ReadRest(ReadNext(r, s, k), s, k + 1)
  }

  lemma DecodeParts(o: Opt, s: string)
    ensures var r := ReadRest(ReadPolicy(o, s), s, 0);
            Decode(o, s) ==
              if !r.ok || r.at != |s| then (r.opt, false)
              else (if r.per then r.opt.(p0 := Wrap(r.opt.p0 * r.opt.p2) / 100) else r.opt, true)
  {
    hide ReadPolicy, ReadNext;
  }

  lemma TailShape(params: seq<Param>)
    ensures params != [] ==> |Tail(params)| > 0 && Tail(params)[0] == ','
  {
  }

  lemma PolicyKept(r: Reading, s: string, k: nat)
    requires r.at <= |s|
    ensures ReadNext(r, s, k).opt.policy == r.opt.policy
  {
    hide ReadParameter;
  }

  lemma {:induction false} AtEndRest(r: Reading, s: string, k: nat)
    requires r.ok && r.at == |s| && 0 < k <= 3
    ensures ReadRest(r, s, k) == r
    decreases 3 - k
  {
    if k < 3 {
      AtEndRest(r, s, k + 1);
    }
  }

  /** The parameters from the k-th on are read, to the end of the text. */
  lemma {:induction false} ReadTail(r: Reading, s: string, params: seq<Param>, k: nat)
    requires r.ok && r.at <= |s| && s[r.at..] == Tail(params) && k + |params| <= 3 && (k > 0 || params != [])
    requires ParamsValid(params, r.opt.policy == DEADLINE, k)
    ensures ReadRest(r, s, k) ==
            Reading(PutParams(r.opt, params, r.opt.policy == DEADLINE, k), |s|,
                    r.per || (k == 0 && params[0].unit == Percent), true)
    decreases |params|
  {
    hide ReadNext, Param.Text, Param.Value;
    if params == [] {
      AtEndRest(r, s, k);
    } else {
      var p, rest := params[0], params[1..];
      var e := r.at + |p.Text()|;
      assert s[r.at..] == p.Text() + Tail(rest);
      assert s[r.at..e] == s[r.at..][..|p.Text()|] == p.Text();
      assert s[e..] == s[r.at..][|p.Text()|..] == Tail(rest);
      TailShape(rest);
      assert e < |s| ==> s[e] == s[e..][0];
      ReadParam(r, s, k, p);
      assert forall i :: 0 <= i < |rest| ==> rest[i] == params[i + 1];
      ReadTail(ReadNext(r, s, k), s, rest, k + 1);
    }
  }

  /** Every phrase is accepted, with its meaning. */
  lemma PhraseRead(o: Opt, t: Phrase)
    requires t.Valid()
    ensures Decode(o, t.Text()) == (t.Meaning(o), true)
  {
    hide ReadPolicy, ReadNext, Decode, Head.Text, Head.Policy, Head.Valid;
    var s := t.Text();
    var r := ReadPolicy(o, s);
    DecodeParts(o, s);
    TailShape(t.params);
    ReadHead(o, t.head, Tail(t.params));
    if t.params == [] {
      assert s == t.head.Text();
      NoMore(r, s);
      AtEndRest(ReadNext(r, s, 0), s, 1);
    } else {
      assert s[r.at..] == Tail(t.params);
      ReadTail(r, s, t.params, 0);
    }
  }

  /** What is read as the parameters from the k-th on are parameters. */
  lemma {:induction false} TailRead(r: Reading, s: string, k: nat) returns (params: seq<Param>)
    requires r.at <= |s| && k <= 3 && ReadRest(r, s, k).ok && ReadRest(r, s, k).at == |s|
    ensures k + |params| <= 3 && ParamsValid(params, r.opt.policy == DEADLINE, k) && s[r.at..] == Tail(params)
    decreases 3 - k
  {
    hide ReadNext, Param.Text;
    if r.at == |s| || k == 3 {
      params := [];
    } else {
      var t := ReadNext(r, s, k);
      OkEarlier(t, s, k + 1);
      OkBefore(r, s, k);
      var p := ParamRead(r, s, k);
      PolicyKept(r, s, k);
      var rest := TailRead(t, s, k + 1);
      params := [p] + rest;
      assert params[1..] == rest;
      assert s[r.at..] == s[r.at..t.at] + s[t.at..];
    }
  }

  lemma OkBefore(r: Reading, s: string, k: nat)
    requires r.at <= |s| && ReadNext(r, s, k).ok
    ensures r.ok
  {
  }

  lemma {:induction false} OkEarlier(r: Reading, s: string, k: nat)
    requires r.at <= |s| && k <= 3 && ReadRest(r, s, k).ok
    ensures r.ok
    decreases 3 - k
  {
    if k < 3 {
      OkEarlier(ReadNext(r, s, k), s, k + 1);
      OkBefore(r, s, k);
    }
  }

  /** What is accepted is a phrase. */
  lemma ReadPhrase(o: Opt, s: string) returns (t: Phrase)
    requires Decode(o, s).1
    ensures t.Valid() && t.Text() == s
  {
    hide ReadPolicy, ReadNext, Decode, Head.Text, Head.Policy, Head.Valid;
    DecodeParts(o, s);
    var r := ReadPolicy(o, s);
    OkEarlier(r, s, 0);
    var h := HeadRead(o, s);
    var params := TailRead(r, s, 0);
    t := Phrase(h, params);
    assert s == s[..r.at] + s[r.at..];
  }

  /** A text is accepted exactly when it is a phrase, and then its meaning is set, whatever was set before. */
  lemma AcceptedIff(o: Opt, s: string)
    ensures Decode(o, s).1 <==> exists t: Phrase :: t.Valid() && t.Text() == s
    ensures forall t: Phrase :: t.Valid() && t.Text() == s ==> Decode(o, s).0 == t.Meaning(o)
  {
    hide Decode, Phrase.Valid, Phrase.Text, Phrase.Meaning;
    if Decode(o, s).1 {
      var t := ReadPhrase(o, s);
    }
    forall t: Phrase | t.Valid() && t.Text() == s ensures Decode(o, s) == (t.Meaning(o), true) {
      PhraseRead(o, t);
    }
  }

  // ----- refused texts -----

  ghost predicate NoNumeral(s: string) {
    forall n: Numeral :: n.Valid() ==> !(n.Text() <= s)
  }

  ghost predicate NoHead(s: string) {
    forall h: Head :: h.Valid() ==> !(h.Text() <= s)
  }

  /** Where a numeral stands, a number is read. */
  lemma SomethingRead(s: string, i: nat, n: Numeral)
    requires n.Valid() && At(s, i, n.Text())
    ensures Strtol(s, i).1 != i
  {
    var k := i + |n.spaces|;
    var d := k + |n.sign.Text()|;
    NumeralStands(s, i, n);
    DigitsFound(s, i, k, n.sign, d, d + |n.digits|);
    assert IsDigit(s[d]);
    StrtolParts(s, i);
    hide SkipSpaces, Number, Strtol, Numeral.Text, DigitsFrom, Clamp;
    assert SkipDigits(s, d) > d;
  }

  lemma NothingRead(s: string, i: nat)
    requires i <= |s| && Strtol(s, i).1 == i
    ensures Strtol(s, i).0 == 0 && NoNumeral(s[i..])
  {
    assert Strtol(s, i).0 == 0;
    hide Strtol, Numeral.Text, Numeral.Valid;
    forall n: Numeral | n.Valid() ensures !(n.Text() <= s[i..]) {
      if n.Text() <= s[i..] {
        assert s[i..i + |n.Text()|] == s[i..][..|n.Text()|];
        SomethingRead(s, i, n);
      }
    }
  }

  /** A text without a policy at its start sets the policy to zero. */
  lemma NoPolicy(o: Opt, s: string)
    ensures ReadPolicy(o, s).ok <==> !NoHead(s)
    ensures !ReadPolicy(o, s).ok ==> ReadPolicy(o, s).opt == o.(policy := 0)
  {
    assert !ReadPolicy(o, s).ok ==> ReadPolicy(o, s).opt == o.(policy := 0);
    if ReadPolicy(o, s).ok {
      var h := HeadRead(o, s);
      assert h.Text() <= s;
    } else {
      forall h: Head | h.Valid() ensures !(h.Text() <= s) {
        if h.Text() <= s {
          SomePolicy(o, s, h);
        }
      }
    }
  }

  lemma SomePolicy(o: Opt, s: string, h: Head)
    requires h.Valid() && h.Text() <= s
    ensures ReadPolicy(o, s).ok
  {
    hide Strtol, Numeral.Text, Numeral.Valid;
    assert s[0..|h.Text()|] == h.Text();
    match h
    case ByNumber(n) => SomethingRead(s, 0, n);
    case ByName(p) =>
      NoNumber(s, p);
      NamedHead(o, s, p);
  }

  lemma {:induction false} StaysRefused(r: Reading, s: string, k: nat)
    requires !r.ok && r.at <= |s| && k <= 3
    ensures ReadRest(r, s, k) == r
    decreases 3 - k
  {
    if k < 3 {
      StaysRefused(r, s, k + 1);
    }
  }

  /** What a refused text has set: the parameters that stand before the fault, and zero for one whose
      number is missing. */
  ghost predicate SetBefore(o: Opt, params: seq<Param>, deadline: bool, k: nat, rest: string, q: Opt)
    requires ParamsValid(params, deadline, k) && rest != ""
  {
    var p := PutParams(o, params, deadline, k);
    if k + |params| >= 3 || rest[0] != ',' then q == p
    else NoNumeral(rest[1..]) && q == Put(p, k + |params|, 0)
  }

  lemma FaultHere(r: Reading, s: string, k: nat)
    requires r.ok && r.at < |s| && k < 3 && !ReadNext(r, s, k).ok
    ensures SetBefore(r.opt, [], r.opt.policy == DEADLINE, k, s[r.at..], ReadNext(r, s, k).opt)
  {
    hide Strtol, NoNumeral;
    var rest := s[r.at..];
    if rest[0] == ',' {
      assert rest[1..] == s[r.at + 1..];
      NothingRead(s, r.at + 1);
      assert Wrap(0) == 0;
    }
  }

  lemma {:induction false} TailRefused(r: Reading, s: string, k: nat) returns (params: seq<Param>, rest: string)
    requires r.ok && r.at <= |s| && k <= 3 && (k > 0 || r.at < |s|)
    requires !(ReadRest(r, s, k).ok && ReadRest(r, s, k).at == |s|)
    ensures k + |params| <= 3 && ParamsValid(params, r.opt.policy == DEADLINE, k) && s[r.at..] == Tail(params) + rest
    ensures rest != "" && SetBefore(r.opt, params, r.opt.policy == DEADLINE, k, rest, ReadRest(r, s, k).opt)
    decreases 3 - k
  {
    hide ReadNext, Param.Text, Param.Value, NoNumeral;
    var deadline := r.opt.policy == DEADLINE;
    if r.at == |s| {
      AtEndRest(r, s, k);
      assert false;
    } else if k == 3 {
      params, rest := [], s[r.at..];
    } else {
      var t := ReadNext(r, s, k);
      if !t.ok {
        params, rest := [], s[r.at..];
        FaultHere(r, s, k);
        StaysRefused(t, s, k + 1);
      } else {
        var p := ParamRead(r, s, k);
        ReadParam(r, s, k, p);
        var more, tail := TailRefused(t, s, k + 1);
        params, rest := [p] + more, tail;
        assert params[1..] == more;
        assert s[r.at..] == s[r.at..t.at] + s[t.at..];
        assert p.Text() + (Tail(more) + rest) == (p.Text() + Tail(more)) + rest;
      }
    }
  }

  /** A refused text without a policy at its start sets the policy to zero; any other sets the policy,
      and the parameters that stand before the fault. */
  lemma RefusedSets(o: Opt, s: string) returns (t: Phrase, rest: string)
    requires !Decode(o, s).1
    ensures NoHead(s) ==> Decode(o, s).0 == o.(policy := 0)
    ensures !NoHead(s) ==>
              && t.Valid() && s == t.Text() + rest && rest != ""
              && SetBefore(o.(policy := t.head.Policy()), t.params, t.head.Policy() == DEADLINE, 0, rest,
                           Decode(o, s).0)
  {
    hide ReadPolicy, ReadNext, Decode, Head.Text, Head.Policy, Head.Valid, NoHead, NoNumeral;
    DecodeParts(o, s);
    NoPolicy(o, s);
    var r := ReadPolicy(o, s);
    t, rest := Phrase(ByName(OTHER), []), "";
    if !r.ok {
      StaysRefused(r, s, 0);
    } else {
      var h := HeadRead(o, s);
      HeadOnly(o, s);
      if r.at == |s| {
        NoMore(r, s);
        AtEndRest(ReadNext(r, s, 0), s, 1);
        assert false;
      } else {
        var params, tail := TailRefused(r, s, 0);
        t, rest := Phrase(h, params), tail;
        assert s == s[..r.at] + s[r.at..];
        assert h.Text() + (Tail(params) + rest) == (h.Text() + Tail(params)) + rest;
      }
    }
  }

  lemma HeadOnly(o: Opt, s: string)
    requires ReadPolicy(o, s).ok
    ensures ReadPolicy(o, s).opt == o.(policy := ReadPolicy(o, s).opt.policy)
  {
  }

  // ----- the units of a deadline -----

  function Plain(n: nat): (x: Numeral)
    ensures x.Valid() && x.Text() == Decimal(n)
  {
    assert "" + "" + Decimal(n) == Decimal(n);
    Numeral("", Bare, Decimal(n))
  }

  lemma PlainValue(n: nat)
    requires n < TWO63
    ensures Plain(n).Value() == n
  {
    DecimalNumber(n);
  }

  /** A deadline by name with its three parameters. */
  function Deadline(x: Param, y: Param, z: Param): (t: Phrase)
    requires x.Valid(true, true) && y.Valid(true, false) && z.Valid(true, false)
    ensures t.Valid()
  {
    Phrase(ByName(DEADLINE), [x, y, z])
  }

  lemma DeadlineText(x: Param, y: Param, z: Param)
    requires x.Valid(true, true) && y.Valid(true, false) && z.Valid(true, false)
    ensures Deadline(x, y, z).Text() == "DEADLINE" + x.Text() + y.Text() + z.Text()
  {
    hide Param.Text, Param.Valid;
    var ps := [x, y, z];
    assert ps[1..] == [y, z] && [y, z][1..] == [z] && [z][1..] == [];
    assert Tail([z]) == z.Text() + "";
    assert z.Text() + "" == z.Text();
    assert Tail([y, z]) == y.Text() + z.Text();
    assert Tail(ps) == x.Text() + (y.Text() + z.Text());
  }

  lemma DeadlineMeaning(o: Opt, x: Param, y: Param, z: Param)
    requires x.Valid(true, true) && y.Valid(true, false) && z.Valid(true, false)
    ensures var a, b, c := x.Value(true), y.Value(true), z.Value(true);
            Deadline(x, y, z).Meaning(o) == Opt(DEADLINE, if x.unit == Percent then Wrap(a * c) / 100 else a, b, c)
  {
    hide Param.Value;
    var ps := [x, y, z];
    assert ps[1..] == [y, z] && [y, z][1..] == [z] && [z][1..] == [];
    var p := o.(policy := DEADLINE);
    var p1 := p.(p0 := x.Value(true));
    var p2 := p1.(p1 := y.Value(true));
    assert PutParams(p2, [z], true, 2) == PutParams(p2.(p2 := z.Value(true)), [], true, 3);
    assert PutParams(p1, [y, z], true, 1) == PutParams(p2, [z], true, 2);
    assert PutParams(p, ps, true, 0) == PutParams(p1, [y, z], true, 1);
  }

  /** The text of a deadline with plain numbers x, y, z and units u, v, w. */
  function Written(x: string, u: string, y: string, v: string, z: string, w: string): string {
    "DEADLINE," + x + u + "," + y + v + "," + z + w
  }

  lemma WrittenParts(x: string, u: string, y: string, v: string, z: string, w: string)
    ensures Written(x, u, y, v, z, w) == "DEADLINE" + ("," + x + u) + ("," + y + v) + ("," + z + w)
  {
    var a, b, c := "," + x + u, "," + y + v, "," + z + w;
    assert "DEADLINE" + a == "DEADLINE," + x + u;
    var s := "DEADLINE" + a;
    assert s + b == s + "," + y + v;
    assert s + b + c == s + b + "," + z + w;
  }

  /** What a whole number of a unit is in microseconds. */
  function InMicros(n: nat, u: Unit): nat {
    match u case Second => 1_000_000 * n case Milli => 1000 * n case _ => n
  }

  lemma PlainParam(n: nat, u: Unit)
    requires n < TWO63 && InMicros(n, u) < TWO64
    ensures Param(Plain(n), u).Text() == "," + Decimal(n) + UnitText(u)
    ensures Param(Plain(n), u).Value(true) == InMicros(n, u)
  {
    hide Decimal, Plain, Numeral.Text, Numeral.Value, Wrap;
    PlainValue(n);
    WrapSmall(InMicros(n, u));
    assert Param(Plain(n), u).Text() == "," + Plain(n).Text() + UnitText(u);
  }

  lemma WrapSmall(n: nat)
    requires n < TWO64
    ensures Wrap(n) == n
  {
  }

  function Share(percent: nat, period: nat): nat {
    percent * period / 100
  }

  /** A deadline with whole numbers, each with a unit of its own: microseconds, milliseconds, or seconds
      when there is none; and the first may be a percentage of the last. */
  lemma UnitsRead(o: Opt, a: nat, u: Unit, b: nat, v: Unit, c: nat, w: Unit)
    requires a < TWO63 && b < TWO63 && c < TWO63 && v != Percent && w != Percent
    requires InMicros(a, u) < TWO64 && InMicros(b, v) < TWO64 && InMicros(c, w) < TWO64
    requires u == Percent ==> a * InMicros(c, w) < TWO64
    ensures Decode(o, Written(Decimal(a), UnitText(u), Decimal(b), UnitText(v), Decimal(c), UnitText(w))) ==
            (Opt(DEADLINE, if u == Percent then Share(a, InMicros(c, w)) else InMicros(a, u), InMicros(b, v),
                 InMicros(c, w)), true)
  {
    hide Decode, Decimal, Plain, Written, Phrase.Text, Phrase.Meaning, Param.Text, Param.Value, UnitText, InMicros,
         Share, Wrap;
    var x, y, z := Param(Plain(a), u), Param(Plain(b), v), Param(Plain(c), w);
    PlainParam(a, u);
    PlainParam(b, v);
    PlainParam(c, w);
    WrittenParts(Decimal(a), UnitText(u), Decimal(b), UnitText(v), Decimal(c), UnitText(w));
    DeadlineText(x, y, z);
    DeadlineMeaning(o, x, y, z);
    PhraseRead(o, Deadline(x, y, z));
    if u == Percent {
      PercentPlain(a);
      ShareFits(a, InMicros(c, w));
    }
  }

  lemma ShareFits(percent: nat, period: nat)
    requires percent * period < TWO64
    ensures Wrap(percent * period) / 100 == Share(percent, period)
  {
    WrapSmall(percent * period);
  }

  lemma PercentPlain(n: nat)
    ensures InMicros(n, Percent) == n
  {
  }

  /** A negative number is kept as the unsigned word with the same bits. */
  lemma NegativeRead(o: Opt, policy: int, n: nat)
    requires OneParameter(policy) && 0 < n <= TWO63
    ensures Decode(o, Name(policy) + ",-" + Decimal(n)) == (o.(policy := policy, p0 := TWO64 - n), true)
  {
    hide Decode, Decimal, Name, Wrap;
    DecimalNumber(n);
    var num := Numeral("", Minus, Decimal(n));
    var x := Param(num, Second);
    var t := Phrase(ByName(policy), [x]);
    PhraseRead(o, t);
    assert num.Text() == "-" + Decimal(n);
    assert x.Text() == ",-" + Decimal(n);
    assert [x][1..] == [];
    assert Tail([x]) == x.Text() + "" == x.Text();
    assert t.Text() == Name(policy) + (",-" + Decimal(n)) == Name(policy) + ",-" + Decimal(n);
    Negated(n);
    assert PutParams(o.(policy := policy), [x], false, 0) == o.(policy := policy, p0 := TWO64 - n);
  }

  lemma Negated(n: nat)
    requires 0 < n <= TWO63
    ensures Wrap(0 - n) == TWO64 - n
  {
    Remainder(0 - n, -1, TWO64 - n);
  }
}

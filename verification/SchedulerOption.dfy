/** The scheduling option of the tools: how it is printed for the slaves and read back there. */
module SchedulerOption {
  import opened Options

  // The policies, by their numbers in Linux.
  const OTHER: int := 0
  const FIFO: int := 1
  const RR: int := 2
  const BATCH: int := 3
  const IDLE: int := 5
  const DEADLINE: int := 6

  const TWO63: int := 0x8000_0000_0000_0000
  const TWO64: int := 0x1_0000_0000_0000_0000

  /** The policy and the parameters, which are unsigned 64-bit numbers. */
  datatype Opt = Opt(policy: int, p0: nat, p1: nat, p2: nat) {
    predicate Valid() {
      p0 < TWO64 && p1 < TWO64 && p2 < TWO64
    }
  }

  function Wrap(n: int): (r: nat)
    ensures r < TWO64
  {
    n % TWO64
  }

  // ----- numbers in text -----

  predicate IsSpace(c: char) {
    c == ' ' || '\t' <= c <= '\r'
  }

  predicate IsDigit(c: char) {
    '0' <= c <= '9'
  }

  function SkipSpaces(s: string, i: nat): (k: nat)
    requires i <= |s|
    ensures i <= k <= |s|
    decreases |s| - i
  {
    if i < |s| && IsSpace(s[i]) then SkipSpaces(s, i + 1) else i
  }

  function SkipDigits(s: string, i: nat): (k: nat)
    requires i <= |s|
    ensures i <= k <= |s| && (k < |s| ==> !IsDigit(s[k])) && forall j :: i <= j < k ==> IsDigit(s[j])
    decreases |s| - i
  {
    if i < |s| && IsDigit(s[i]) then SkipDigits(s, i + 1) else i
  }

  function DigitOf(c: char): nat
    requires IsDigit(c)
  {
    c as int - '0' as int
  }

  /** The number that a text of digits is. */
  function Number(t: string): nat
    requires forall i :: 0 <= i < |t| ==> IsDigit(t[i])
  {
    if t == [] then 0 else Number(t[..|t| - 1]) * 10 + DigitOf(t[|t| - 1])
  }

  lemma Tenfold(d: nat, n: nat)
    requires n > 0
    ensures 10 * (d * Power(n - 1)) == d * Power(n)
  {
    assert Power(n) == 10 * Power(n - 1);
  }

  /** The first digit counts the most. */
  lemma {:induction false} NumberFirst(t: string)
    requires |t| > 0 && forall i :: 0 <= i < |t| ==> IsDigit(t[i])
    ensures Number(t) == DigitOf(t[0]) * Power(|t| - 1) + Number(t[1..])
    decreases |t|
  {
    var n := |t| - 1;
    if n == 0 {
      assert t[..0] == [];
    } else {
      hide Power;
      NumberFirst(t[..n]);
      assert t[..n][1..] == t[1..][..n - 1];
      assert Number(t[1..]) == Number(t[1..][..n - 1]) * 10 + DigitOf(t[n]);
      Tenfold(DigitOf(t[0]), n);
    }
  }

  lemma SpacesAre(c: char)
    ensures IsSpace(c) <==> c as int in {9, 10, 11, 12, 13, 32}
  {
  }

  function Clamp(n: int): int {
    if n >= TWO63 then TWO63 - 1 else if n < -TWO63 then -TWO63 else n
  }

  /** strtol: the number read, and where it ends; where it starts if there is none. */
  function Strtol(s: string, i: nat): (r: (int, nat))
    requires i <= |s|
    ensures i <= r.1 <= |s|
  {
    var k := SkipSpaces(s, i);
    var signed := k < |s| && (s[k] == '-' || s[k] == '+');
    var d := if signed then k + 1 else k;
    var e := SkipDigits(s, d);
    if e == d then (0, i)
    else
      var n := Number(s[d..e]);
      (Clamp(if signed && s[k] == '-' then 0 - n else n), e)
  }

  /** A number in decimal. */
  function Decimal(n: nat): (t: string)
    ensures |t| > 0 && forall i :: 0 <= i < |t| ==> IsDigit(t[i])
  {
    var last := [(n % 10 + '0' as int) as char];
    if n < 10 then last else Decimal(n / 10) + last
  }

  lemma {:induction false} DecimalNumber(n: nat)
    ensures Number(Decimal(n)) == n
  {
    var t, c := Decimal(n), (n % 10 + '0' as int) as char;
    if n < 10 {
      assert t[..0] == [];
    } else {
      DecimalNumber(n / 10);
      assert t[..|t| - 1] == Decimal(n / 10);
    }
  }

  lemma {:induction false} SkipExactly(s: string, i: nat, e: nat)
    requires i <= e <= |s| && (forall j :: i <= j < e ==> IsDigit(s[j])) && (e < |s| ==> !IsDigit(s[e]))
    ensures SkipDigits(s, i) == e
    decreases e - i
  {
    if i < e {
      SkipExactly(s, i + 1, e);
    }
  }

  /** A printed number is read back, up to the largest signed one. */
  lemma ReadDecimal(s: string, i: nat, n: nat, e: nat)
    requires i <= e <= |s| && s[i..e] == Decimal(n) && (e < |s| ==> !IsDigit(s[e]))
    ensures Strtol(s, i) == (if n < TWO63 then n else TWO63 - 1, e)
  {
    hide Decimal, Number, SkipDigits;
    assert forall j :: i <= j < e ==> s[j] == s[i..e][j - i];
    assert IsDigit(s[i]);
    SkipExactly(s, i, e);
    DecimalNumber(n);
  }

  // ----- printing -----

  predicate Known(policy: int) {
    policy == OTHER || policy == BATCH || policy == FIFO || policy == RR || policy == IDLE || policy == DEADLINE
  }

  predicate OneParameter(policy: int) {
    policy == OTHER || policy == BATCH || policy == FIFO || policy == RR
  }

  /** The text of an option; other policies are not printed at all. */
  function Encode(o: Opt): Option<string> {
    if !Known(o.policy) then None
    else if o.policy == IDLE then Some(Decimal(o.policy))
    else if o.policy == DEADLINE then
      Some(Decimal(o.policy) + "," + Decimal(o.p0) + "u," + Decimal(o.p1) + "u," + Decimal(o.p2) + "u")
    else Some(Decimal(o.policy) + "," + Decimal(o.p0))
  }

  // ----- reading -----

  /** A place in the text with what has been read so far, or a refusal. */
  datatype Reading = Reading(opt: Opt, at: nat, per: bool, ok: bool)

  /** The 32-bit signed number with the same low bits. */
  function IntCast(n: int): (r: int)
    ensures -0x8000_0000 <= r < 0x8000_0000 && (n - r) % 0x1_0000_0000 == 0
  {
    (n + 0x8000_0000) % 0x1_0000_0000 - 0x8000_0000
  }

  predicate Starts(s: string, name: string) {
    |name| <= |s| && s[..|name|] == name
  }

  /** The policy, by number or by name. */
  function ReadPolicy(o: Opt, s: string): (r: Reading)
    ensures r.at <= |s|
  {
    var (n, e) := Strtol(s, 0);
    if e != 0 then Reading(o.(policy := IntCast(n)), e, false, true)
    else if Starts(s, "OTHER") then Reading(o.(policy := OTHER), 5, false, true)
    else if Starts(s, "DEADLINE") then Reading(o.(policy := DEADLINE), 8, false, true)
    else if Starts(s, "FIFO") then Reading(o.(policy := FIFO), 4, false, true)
    else if Starts(s, "BATCH") then Reading(o.(policy := BATCH), 5, false, true)
    else if Starts(s, "IDLE") then Reading(o.(policy := IDLE), 4, false, true)
    else if Starts(s, "RR") then Reading(o.(policy := RR), 2, false, true)
    else Reading(o.(policy := 0), 0, false, false)
  }

  /** A parameter after a comma, with a unit when there is a deadline; the first may be a percentage. */
  function ReadParameter(s: string, i: nat, deadline: bool, percent: bool): (r: (nat, nat, bool, bool))
    requires i < |s|
    ensures i <= r.1 <= |s|
  {
    if s[i] != ',' then (0, i, false, false)
    else
      var (n, e) := Strtol(s, i + 1);
      if e == i + 1 then (Wrap(n), e, false, false)
      else if !deadline then (Wrap(n), e, false, true)
      else if e < |s| && s[e] == 'u' then (Wrap(n), e + 1, false, true)
      else if e < |s| && s[e] == 'm' then (Wrap(Wrap(n) * 1000), e + 1, false, true)
      else if percent && e < |s| && s[e] == '%' then (Wrap(n), e + 1, true, true)
      else (Wrap(Wrap(n) * 1_000_000), e, false, true)
  }

  function Defaults(o: Opt): Opt {
    if o.policy == OTHER || o.policy == BATCH then o.(p0 := 0)
    else if o.policy == FIFO || o.policy == RR then o.(p0 := 1)
    else if o.policy == DEADLINE then o.(p0 := 100_000, p1 := 995_000, p2 := 1_000_000)
    else o
  }

  function Put(o: Opt, k: nat, n: nat): Opt {
    if k == 0 then o.(p0 := n) else if k == 1 then o.(p1 := n) else o.(p2 := n)
  }

  /** The k-th parameter, when there is more text. */
  function ReadNext(r: Reading, s: string, k: nat): (t: Reading)
    requires r.at <= |s|
    ensures t.at <= |s|
  {
    if !r.ok then r
    else if r.at == |s| then if k == 0 then r.(opt := Defaults(r.opt)) else r
    else
      var (n, e, per, ok) := ReadParameter(s, r.at, r.opt.policy == DEADLINE, k == 0);
      if s[r.at] != ',' then r.(ok := false)
      else Reading(Put(r.opt, k, n), e, r.per || per, ok)
  }

  /** Reads a text into an option; what the text does not mention stays. */
  function Decode(o: Opt, s: string): (Opt, bool) {
    var r := ReadNext(ReadNext(ReadNext(ReadPolicy(o, s), s, 0), s, 1), s, 2);
    if !r.ok || r.at != |s| then (r.opt, false)
    else (if r.per then r.opt.(p0 := Wrap(r.opt.p0 * r.opt.p2) / 100) else r.opt, true)
  }

  // ----- the round trip -----

  /** The parameters that a policy uses. */
  predicate Same(o: Opt, q: Opt) {
    && q.policy == o.policy
    && (OneParameter(o.policy) ==> q.p0 == o.p0)
    && (o.policy == DEADLINE ==> q.p0 == o.p0 && q.p1 == o.p1 && q.p2 == o.p2)
  }

  predicate Small(o: Opt) {
    && (OneParameter(o.policy) ==> o.p0 < TWO63)
    && (o.policy == DEADLINE ==> o.p0 < TWO63 && o.p1 < TWO63 && o.p2 < TWO63)
  }

  function Least(n: nat): nat {
    if n < TWO63 then n else TWO63 - 1
  }

  lemma PolicyBack(o: Opt, r: Opt, rest: string)
    requires Known(o.policy) && (rest != [] ==> !IsDigit(rest[0]))
    ensures ReadPolicy(r, Decimal(o.policy) + rest) == Reading(r.(policy := o.policy), |Decimal(o.policy)|, false, true)
  {
    hide Decimal, Strtol;
    var s, d := Decimal(o.policy) + rest, Decimal(o.policy);
    assert s[0..|d|] == d;
    ReadDecimal(s, 0, o.policy, |d|);
  }

  /** A parameter printed after what was read so far. */
  lemma ParameterBack(r: Reading, done: string, n: nat, tail: string, k: nat)
    requires r.ok && r.at == |done| && n < TWO64
    requires if r.opt.policy == DEADLINE then tail != [] && tail[0] == 'u' else tail == []
    ensures var s := done + "," + Decimal(n) + tail;
            ReadNext(r, s, k) == Reading(Put(r.opt, k, Least(n)),
                |s| - |tail| + (if r.opt.policy == DEADLINE then 1 else 0), r.per, true)
  {
    hide Decimal, Strtol;
    var s, d := done + "," + Decimal(n) + tail, Decimal(n);
    var i := |done| + 1;
    assert s[|done|] == ',';
    assert s[i..i + |d|] == d;
    assert tail != [] ==> s[i + |d|] == tail[0];
    ReadDecimal(s, i, n, i + |d|);
  }

  lemma OneBack(o: Opt, r: Opt)
    requires OneParameter(o.policy) && o.Valid()
    ensures Decode(r, Encode(o).value) == (r.(policy := o.policy, p0 := Least(o.p0)), true)
  {
    hide Decimal, Strtol, ReadPolicy, ReadNext;
    var d := Decimal(o.policy);
    var s := Encode(o).value;
    assert s == d + ("," + Decimal(o.p0)) && s == d + "," + Decimal(o.p0) + "";
    PolicyBack(o, r, "," + Decimal(o.p0));
    ParameterBack(ReadPolicy(r, s), d, o.p0, "", 0);
    var t := ReadNext(ReadPolicy(r, s), s, 0);
    assert ReadNext(t, s, 1) == t && ReadNext(t, s, 2) == t by { AtEnd(t, s); }
  }

  lemma AtEnd(r: Reading, s: string)
    requires r.ok && r.at == |s|
    ensures ReadNext(r, s, 1) == r && ReadNext(r, s, 2) == r
  {
  }

  /** The text of a deadline option, cut at each of its commas. */
  lemma Pieces(d: string, x: string, y: string, z: string, u: string)
    ensures var s := d + "," + x + "u," + y + "u," + z + u;
            && s == d + ("," + x + "u," + y + "u," + z + u)
            && s == d + "," + x + ("u," + y + "u," + z + u)
            && s == (d + "," + x + "u") + "," + y + ("u," + z + u)
            && s == (d + "," + x + "u" + "," + y + "u") + "," + z + u
  {
  }

  lemma DeadlineStart(o: Opt, r: Opt, s: string, u: string)
    requires o.policy == DEADLINE && o.Valid()
    requires s == Decimal(o.policy) + "," + Decimal(o.p0) + "u," + Decimal(o.p1) + "u," + Decimal(o.p2) + u
    ensures ReadNext(ReadNext(ReadPolicy(r, s), s, 0), s, 1) ==
            Reading(Opt(DEADLINE, Least(o.p0), Least(o.p1), r.p2), |s| - |u| - |Decimal(o.p2)| - 1, false, true)
  {
    hide Decimal, Strtol, ReadPolicy, ReadNext;
    var d, x, y, z := Decimal(o.policy), Decimal(o.p0), Decimal(o.p1), Decimal(o.p2);
    Pieces(d, x, y, z, u);
    PolicyBack(o, r, "," + x + "u," + y + "u," + z + u);
    var r0 := ReadPolicy(r, s);
    ParameterBack(r0, d, o.p0, "u," + y + "u," + z + u, 0);
    var r1 := ReadNext(r0, s, 0);
    ParameterBack(r1, d + "," + x + "u", o.p1, "u," + z + u, 1);
  }

  lemma DeadlineBack(o: Opt, r: Opt)
    requires o.policy == DEADLINE && o.Valid()
    ensures Decode(r, Encode(o).value) == (Opt(DEADLINE, Least(o.p0), Least(o.p1), Least(o.p2)), true)
  {
    hide Decimal, Strtol, ReadPolicy, ReadNext;
    var s := Encode(o).value;
    var d, x, y, z := Decimal(o.policy), Decimal(o.p0), Decimal(o.p1), Decimal(o.p2);
    Pieces(d, x, y, z, "u");
    DeadlineStart(o, r, s, "u");
    var r2 := ReadNext(ReadNext(ReadPolicy(r, s), s, 0), s, 1);
    ParameterBack(r2, d + "," + x + "u" + "," + y + "u", o.p2, "u", 2);
  }

  /** Reading a printed option, whatever was set before, restores its policy and the parameters that
      the policy uses exactly when these are below 2^63; larger ones come back as 2^63 - 1. */
  lemma RoundTripIff(o: Opt, r: Opt)
    requires Known(o.policy) && o.Valid()
    ensures var (q, ok) := Decode(r, Encode(o).value);
            ok && (Same(o, q) <==> Small(o))
  {
    hide Decimal, Strtol, ReadPolicy, ReadNext, Decode;
    if o.policy == DEADLINE {
      DeadlineBack(o, r);
    } else if o.policy == IDLE {
      IdleBack(o, r);
    } else {
      OneBack(o, r);
    }
  }

  lemma IdleBack(o: Opt, r: Opt)
    requires o.policy == IDLE
    ensures Decode(r, Encode(o).value) == (r.(policy := IDLE), true)
  {
    hide Decimal, Strtol, ReadPolicy;
    var d := Decimal(o.policy);
    assert d == d + "";
    PolicyBack(o, r, "");
  }

  // ----- options that name their policy only -----

  /** The parameters that the usage text promises for a policy without any. */
  function Standard(policy: int): Opt {
    if policy == OTHER || policy == BATCH then Opt(policy, 0, 0, 0)
    else if policy == DEADLINE then Opt(policy, 100_000, 995_000, 1_000_000)
    else Opt(policy, 1, 0, 0)
  }

  function Name(policy: int): string
    requires Known(policy)
  {
    if policy == OTHER then "OTHER" else if policy == FIFO then "FIFO" else if policy == RR then "RR"
    else if policy == BATCH then "BATCH" else if policy == IDLE then "IDLE" else "DEADLINE"
  }

  lemma BareBack(r: Opt, policy: int)
    requires Known(policy)
    ensures Decode(r, Decimal(policy)) == (Defaults(r.(policy := policy)), true)
  {
    hide Decimal, Strtol, ReadPolicy;
    var d := Decimal(policy);
    assert d + "" == d;
    PolicyBack(Opt(policy, 0, 0, 0), r, "");
  }

  lemma NameBack(r: Opt, policy: int)
    requires Known(policy)
    ensures Decode(r, Name(policy)) == (Defaults(r.(policy := policy)), true)
  {
    var s := Name(policy);
    assert !IsSpace(s[0]) && !IsDigit(s[0]) && s[0] != '-' && s[0] != '+';
    assert Strtol(s, 0) == (0, 0);
    hide Strtol;
    assert ReadPolicy(r, s) == Reading(r.(policy := policy), |s|, false, true) by { NamedPolicy(r, policy); }
    hide ReadPolicy;
  }

  lemma NamedPolicy(r: Opt, policy: int)
    requires Known(policy) && Strtol(Name(policy), 0) == (0, 0)
    ensures ReadPolicy(r, Name(policy)) == Reading(r.(policy := policy), |Name(policy)|, false, true)
  {
    hide Strtol;
    var s := Name(policy);
    assert s[..|s|] == s;
    FirstLetter(s, "OTHER");
    FirstLetter(s, "DEADLINE");
    FirstLetter(s, "FIFO");
    FirstLetter(s, "BATCH");
    FirstLetter(s, "IDLE");
  }

  lemma FirstLetter(s: string, name: string)
    requires |s| > 0 && |name| > 0
    ensures Starts(s, name) ==> s[0] == name[0]
  {
    assert |name| <= |s| ==> s[..|name|][0] == s[0];
  }

  /** A policy alone, by name or by number, is the same option as the printed one with the standard
      parameters spelled out. */
  lemma BareIsStandard(r: Opt, policy: int)
    requires Known(policy)
    ensures Decode(r, Name(policy)) == Decode(r, Decimal(policy)) == Decode(r, Encode(Standard(policy)).value)
  {
    hide Decode, Decimal;
    NameBack(r, policy);
    BareBack(r, policy);
    if policy == DEADLINE {
      DeadlineBack(Standard(policy), r);
    } else if policy != IDLE {
      OneBack(Standard(policy), r);
    }
  }

  // ----- the buffer -----

  /** What fits of the text into a buffer, with an end of its own. */
  function Printed(o: Opt, size: nat): Option<string>
    requires size > 0
  {
    match Encode(o)
    case None => None
    case Some(s) => Some(if |s| < size then s else s[..size - 1])
  }

  function Power(k: nat): nat {
    if k == 0 then 1 else 10 * Power(k - 1)
  }

  lemma {:induction false} DecimalLength(n: nat, k: nat)
    requires n < Power(k) && k > 0
    ensures |Decimal(n)| <= k && (|Decimal(n)| > 1 ==> n > 0)
  {
    if n >= 10 {
      DecimalLength(n / 10, k - 1);
    }
  }

  lemma SmallLength(n: nat)
    requires n < TWO63
    ensures |Decimal(n)| <= 19 && (|Decimal(n)| > 1 ==> n > 0)
  {
    hide Decimal;
    assert Power(10) == 10_000_000_000;
    assert Power(19) == 10_000_000_000_000_000_000;
    DecimalLength(n, 19);
  }

  /** Without its unit a number is taken for seconds: it is never the same number of microseconds. */
  lemma MillionMoves(n: nat)
    requires 0 < n < TWO64
    ensures Wrap(n * 1_000_000) != n
  {
    var k, m := 1672254362768354751, 90653;
    assert k * 999_999 == 1 + m * TWO64;
    if Wrap(n * 1_000_000) == n {
      var q := n * 1_000_000 / TWO64;
      assert n * 999_999 == q * TWO64;
      assert n == (n * 999_999) * k - n * m * TWO64;
      Multiple(n, q * k - n * m);
    }
  }

  lemma Multiple(n: nat, q: int)
    requires n == q * TWO64
    ensures n == 0 || n >= TWO64
  {
  }

  /** A text that loses its last letter. */
  lemma CutBack(o: Opt, r: Opt)
    requires o.policy == DEADLINE && o.Valid() && Small(o)
    ensures var s := Encode(o).value;
            Decode(r, s[..|s| - 1]) == (Opt(DEADLINE, o.p0, o.p1, Wrap(o.p2 * 1_000_000)), true)
  {
    hide Decimal, Strtol, ReadPolicy, ReadNext;
    var d, x, y, z := Decimal(o.policy), Decimal(o.p0), Decimal(o.p1), Decimal(o.p2);
    var t := Encode(o).value;
    var s := t[..|t| - 1];
    assert s == d + "," + x + "u," + y + "u," + z + "";
    Pieces(d, x, y, z, "");
    DeadlineStart(o, r, s, "");
    var r2 := ReadNext(ReadNext(ReadPolicy(r, s), s, 0), s, 1);
    SecondsBack(r2, d + "," + x + "u" + "," + y + "u", o.p2);
  }

  lemma SecondsBack(r: Reading, done: string, n: nat)
    requires r.ok && r.at == |done| && n < TWO63 && r.opt.policy == DEADLINE
    ensures var s := done + "," + Decimal(n) + "";
            ReadNext(r, s, 2) == Reading(Put(r.opt, 2, Wrap(n * 1_000_000)), |s|, r.per, true)
  {
    hide Decimal, Strtol;
    var s, d := done + "," + Decimal(n) + "", Decimal(n);
    var i := |done| + 1;
    assert s[|done|] == ',';
    assert s[i..i + |d|] == d;
    ReadDecimal(s, i, n, i + |d|);
  }

  /** With parameters below 2^63 the option survives the 64-byte buffer of axiom-run exactly when its
      text fits: a deadline with three 19-digit parameters does not. */
  lemma BufferIff(o: Opt, r: Opt)
    requires Known(o.policy) && o.Valid() && Small(o)
    ensures var (q, ok) := Decode(r, Printed(o, 64).value);
            ok && (Same(o, q) <==> |Encode(o).value| < 64)
  {
    hide Decode, Decimal;
    RoundTripIff(o, r);
    assert |Decimal(o.policy)| <= 1 by { assert Power(1) == 10; DecimalLength(o.policy, 1); }
    if o.policy == DEADLINE {
      SmallLength(o.p0);
      SmallLength(o.p1);
      SmallLength(o.p2);
      if |Encode(o).value| >= 64 {
        assert |Encode(o).value| == 64;
        CutBack(o, r);
        MillionMoves(o.p2);
      }
    } else if o.policy != IDLE {
      SmallLength(o.p0);
    }
  }

  lemma {:induction false} DecimalLong(n: nat, k: nat)
    requires n >= Power(k)
    ensures |Decimal(n)| > k
  {
    if k > 0 {
      DecimalLong(n / 10, k - 1);
    }
  }

  /** The nice value -1, as the unsigned number it is kept in, comes back as another. */
  lemma NiceLost(r: Opt)
    ensures Decode(r, Encode(Opt(OTHER, TWO64 - 1, 0, 0)).value) == (r.(policy := OTHER, p0 := TWO63 - 1), true)
  {
    OneBack(Opt(OTHER, TWO64 - 1, 0, 0), r);
  }

  /** A deadline option that is too long for the buffer of axiom-run. */
  lemma DeadlineLost(r: Opt)
    ensures var n := 1_000_000_000_000_000_000;
            Decode(r, Printed(Opt(DEADLINE, n, n, n), 64).value).0.p2 != n
  {
    hide Decimal, Decode;
    var n := 1_000_000_000_000_000_000;
    var o := Opt(DEADLINE, n, n, n);
    assert Power(10) == 10_000_000_000;
    assert Power(18) == n;
    DecimalLong(n, 18);
    assert |Encode(o).value| >= 64;
    BufferIff(o, r);
    SmallLength(n);
    DecimalLong(6, 0);
    assert |Encode(o).value| == 64 by { assert Power(1) == 10; DecimalLength(6, 1); }
    CutBack(o, r);
    MillionMoves(n);
  }

  // ----- the code -----

  lemma NumberStep(s: string, i: nat, k: nat)
    requires i <= k < |s| && forall j :: i <= j <= k ==> IsDigit(s[j])
    ensures Number(s[i..k + 1]) == Number(s[i..k]) * 10 + DigitOf(s[k])
  {
    assert s[i..k + 1][..k - i] == s[i..k];
  }

  method ReadDigits(s: string, start: nat) returns (n: nat, end: nat)
    requires start <= |s|
    ensures end == SkipDigits(s, start) && n == Number(s[start..end])
  {
    hide Number, IsDigit;
    n, end := 0, start;
    assert Number(s[start..start]) == 0 by { NumberNone(s[start..start]); }
    while end < |s| && IsDigit(s[end])
      invariant start <= end <= |s| && SkipDigits(s, end) == SkipDigits(s, start)
      invariant (forall i :: start <= i < end ==> IsDigit(s[i])) && n == Number(s[start..end])
    {
      NumberStep(s, start, end);
      n := n * 10 + DigitOf(s[end]);
      end := end + 1;
    }
  }

  lemma NumberNone(t: string)
    requires t == ""
    ensures Number(t) == 0
  {
  }

  method ReadNumber(s: string, start: nat) returns (n: int, end: nat)
    requires start <= |s|
    ensures (n, end) == Strtol(s, start)
  {
    hide Number, SkipDigits;
    var k := start;
    while k < |s| && IsSpace(s[k])
      invariant start <= k <= |s| && SkipSpaces(s, k) == SkipSpaces(s, start)
    {
      k := k + 1;
    }
    var negative := false;
    if k < |s| && (s[k] == '-' || s[k] == '+') {
      negative := s[k] == '-';
      k := k + 1;
    }
    n, end := ReadDigits(s, k);
    if end == k {
      return 0, start;
    }
    n := Clamp(if negative then 0 - n else n);
  }

  /** The scheduling state of a process. */
  class Scheduler {
    var policy: int
    var p0: nat
    var p1: nat
    var p2: nat

    ghost function View(): Opt
      reads this
    {
      Opt(policy, p0, p1, p2)
    }

    constructor ()
      ensures View() == Opt(OTHER, 0, 0, 0)
    {
      policy, p0, p1, p2 := OTHER, 0, 0, 0;
    }

    /** Prints the option into a buffer of a given size. A text that is not cut is read back, whatever
        was set there before, to the same option exactly when the parameters are below 2^63. */
    method EncodeText(size: nat) returns (text: Option<string>)
      requires size > 0
      ensures text == Printed(View(), size)
      ensures text.Some? <==> Known(policy)
      ensures text.Some? && View().Valid() && |Encode(View()).value| < size ==>
                forall r :: Decode(r, text.value).1 && (Same(View(), Decode(r, text.value).0) <==> Small(View()))
    {
      if Known(policy) && View().Valid() && |Encode(View()).value| < size {
        forall r
          ensures Decode(r, Encode(View()).value).1
                  && (Same(View(), Decode(r, Encode(View()).value).0) <==> Small(View()))
        {
          RoundTripIff(View(), r);
        }
      }
      hide Decode;
      text := None;
      if policy == IDLE {
        text := Some(Decimal(policy));
      } else if policy == DEADLINE {
        text := Some(Decimal(policy) + "," + Decimal(p0) + "u," + Decimal(p1) + "u," + Decimal(p2) + "u");
      } else if policy == OTHER || policy == BATCH || policy == FIFO || policy == RR {
        text := Some(Decimal(policy) + "," + Decimal(p0));
      }
      if text.Some? && |text.value| >= size {
        text := Some(text.value[..size - 1]);
      }
    }

    method ReadName(s: string) returns (end: nat, ok: bool)
      requires Strtol(s, 0).1 == 0
      modifies this
      ensures ReadPolicy(old(View()), s) == Reading(View(), end, false, ok)
    {
      hide Strtol;
      ok, policy, end := true, 0, 0;
      if Starts(s, "OTHER") {
        policy, end := OTHER, 5;
      } else if Starts(s, "DEADLINE") {
        policy, end := DEADLINE, 8;
      } else if Starts(s, "FIFO") {
        policy, end := FIFO, 4;
      } else if Starts(s, "BATCH") {
        policy, end := BATCH, 5;
      } else if Starts(s, "IDLE") {
        policy, end := IDLE, 4;
      } else if Starts(s, "RR") {
        policy, end := RR, 2;
      } else {
        ok := false;
      }
    }

    method SetParameter(k: nat, n: nat)
      modifies this
      ensures View() == Put(old(View()), k, n)
    {
      if k == 0 {
        p0 := n;
      } else if k == 1 {
        p1 := n;
      } else {
        p2 := n;
      }
    }

    /** One parameter of the text, from its comma on. */
    method ReadOne(s: string, at: nat, k: nat) returns (end: nat, per: bool, ok: bool)
      requires at < |s|
      modifies this
      ensures ReadNext(Reading(old(View()), at, false, true), s, k) == Reading(View(), end, per, ok)
      ensures end <= |s|
    {
      hide Strtol;
      end, per, ok := at, false, false;
      if s[at] != ',' {
        return;
      }
      var n: int;
      n, end := ReadNumber(s, at + 1);
      var value := Wrap(n);
      if end != at + 1 {
        ok := true;
        if policy == DEADLINE {
          if end < |s| && (s[end] == 'u' || s[end] == 'm' || (k == 0 && s[end] == '%')) {
            if s[end] == 'm' {
              value := Wrap(value * 1000);
            }
            per := s[end] == '%';
            end := end + 1;
          } else {
            value := Wrap(value * 1_000_000);
          }
        }
      }
      SetParameter(k, value);
    }

    method SetDefaults()
      modifies this
      ensures View() == Defaults(old(View()))
    {
      if policy == OTHER || policy == BATCH {
        p0 := 0;
      } else if policy == FIFO || policy == RR {
        p0 := 1;
      } else if policy == DEADLINE {
        p0, p1, p2 := 100 * 1000, 995 * 1000, 1000 * 1000;
      }
    }

    /** Reads an option; on a refusal what was read before it stays. */
    method DecodeText(s: string) returns (ok: bool)
      modifies this
      ensures (View(), ok) == Decode(old(View()), s)
    {
      hide Strtol, ReadPolicy, ReadNext;
      var end: nat, per := 0, false;
      ghost var r := ReadPolicy(View(), s);
      end, ok := ReadPolicyText(s);
      assert r == Reading(View(), end, false, ok);
      if !ok {
        Refused(r, s);
        return;
      }
      ghost var r0 := ReadNext(r, s, 0);
      if end == |s| {
        SetDefaults();
        assert r0 == Reading(View(), end, false, true) by { NoMore(r, s); }
      } else {
        end, per, ok := ReadOne(s, end, 0);
      }
      if !ok {
        Refused(r0, s);
        return;
      }
      ghost var r1 := ReadNext(r0, s, 1);
      if end < |s| {
        var more: bool;
        ForgetPer(r0, s, 1);
        end, more, ok := ReadOne(s, end, 1);
      } else {
        AtEnd(r0, s);
      }
      if !ok {
        Refused(r1, s);
        return;
      }
      ghost var r2 := ReadNext(r1, s, 2);
      if end < |s| {
        var more: bool;
        ForgetPer(r1, s, 2);
        end, more, ok := ReadOne(s, end, 2);
      } else {
        AtEnd(r1, s);
      }
      if !ok {
        return;
      }
      if end < |s| {
        return false;
      }
      if per {
        p0 := Wrap(p0 * p2) / 100;
      }
    }

    method ReadPolicyText(s: string) returns (end: nat, ok: bool)
      modifies this
      ensures ReadPolicy(old(View()), s) == Reading(View(), end, false, ok) && end <= |s|
    {
      hide Strtol;
      var n: int;
      n, end := ReadNumber(s, 0);
      policy, ok := IntCast(n), true;
      if end == 0 {
        end, ok := ReadName(s);
      }
    }
  }

  lemma Refused(r: Reading, s: string)
    requires !r.ok && r.at <= |s|
    ensures ReadNext(r, s, 0) == r && ReadNext(r, s, 1) == r && ReadNext(r, s, 2) == r
  {
  }

  lemma NoMore(r: Reading, s: string)
    requires r.ok && r.at == |s|
    ensures ReadNext(r, s, 0) == r.(opt := Defaults(r.opt))
  {
  }

  /** A percentage stands only in the first parameter. */
  lemma ForgetPer(r: Reading, s: string, k: nat)
    requires r.ok && r.at < |s| && k > 0
    ensures var t := ReadNext(r.(per := false), s, k); !t.per && ReadNext(r, s, k) == t.(per := r.per)
  {
    hide Strtol;
  }
}

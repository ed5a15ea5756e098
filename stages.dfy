/**
 * The pipeline stage record of the shell (struct command_t without its `next`
 * link) and the grammar parse_command applies to a sequence of tokens.
 */
module Stages {
  import opened Wrappers
  import opened Tokenizer

  /** Capacity of a stage's argument vector (MAX_ARGS). */
  const MAX_ARGS: nat := 100

  /** One pipeline stage: its name, ordinary arguments, background flag and three redirect slots. */
  datatype Stage = Stage(
    name: Option<string>,
    args: seq<string>,
    background: bool,
    redirectIn: Option<string>,
    redirectOut: Option<string>,
    redirectAppend: Option<string>)

  /** The stage init_command leaves: no name, no arguments, not in background, no redirects. */
  const EmptyStage: Stage := Stage(None, [], false, None, None, None)

  predicate IsRedirectOp(t: string) {
    t == "<" || t == ">" || t == ">>"
  }

  /** Stores `target` in the redirect slot that `op` selects, overwriting what was there. */
  function Redirect(cur: Stage, op: string, target: Option<string>): Stage
    requires IsRedirectOp(op)
  {
    if op == "<" then cur.(redirectIn := target)
    else if op == ">" then cur.(redirectOut := target)
    else cur.(redirectAppend := target)
  }

  /** Appends an ordinary token; the first one also becomes the name. */
  function AddArg(cur: Stage, t: string): Stage {
    cur.(name := if cur.name.None? then Some(t) else cur.name, args := cur.args + [t])
  }

  /**
   * The chain parse_command builds when `toks` are the tokens it has still to read
   * and `cur` is the stage it is filling.  A redirect operator consumes the next
   * token whatever it is; `|` closes the stage and starts a fresh one.
   */
  function Build(toks: seq<string>, cur: Stage): (ss: seq<Stage>)
    ensures |ss| >= 1
    decreases |toks|
  {
    if toks == [] then [cur]
    else if toks[0] == "&" then Build(toks[1..], cur.(background := true))
    else if IsRedirectOp(toks[0]) then
      if |toks| == 1 then [Redirect(cur, toks[0], None)]
      else Build(toks[2..], Redirect(cur, toks[0], Some(toks[1])))
    else if toks[0] == "|" then [cur] + Build(toks[1..], EmptyStage)
    else Build(toks[1..], AddArg(cur, toks[0]))
  }

  /** The part a token plays on the line. */
  datatype Role = Arg | Amp | RedirectOp | Target | Pipe

  /** The role a token's text alone gives it. */
  function RoleOf(t: string): Role {
    if IsRedirectOp(t) then RedirectOp else if t == "&" then Amp else if t == "|" then Pipe else Arg
  }

  /**
   * Reading left to right, a token is a redirect target when it follows a redirect
   * operator that is not itself a target; otherwise its text alone decides its role.
   */
  function Roles(toks: seq<string>): (rs: seq<Role>)
    ensures |rs| == |toks|
    decreases |toks|
  {
    if toks == [] then []
    else if IsRedirectOp(toks[0]) && |toks| >= 2 then [RedirectOp, Target] + Roles(toks[2..])
    else [RoleOf(toks[0])] + Roles(toks[1..])
  }

  /** The tokens whose role is `role`, in order. */
  function Select(toks: seq<string>, rs: seq<Role>, role: Role): seq<string>
    requires |toks| == |rs|
  {
    if toks == [] then [] else (if rs[0] == role then [toks[0]] else []) + Select(toks[1..], rs[1..], role)
  }

  /** The ordinary tokens. */
  function Words(toks: seq<string>): seq<string> {
    Select(toks, Roles(toks), Arg)
  }

  function Count(rs: seq<Role>, role: Role): nat {
    if rs == [] then 0 else (if rs[0] == role then 1 else 0) + Count(rs[1..], role)
  }

  /** The index of the last operator `op` (in the operator role) before index n. */
  function LastOp(toks: seq<string>, rs: seq<Role>, op: string, n: nat): (r: Option<nat>)
    requires |toks| == |rs| && n <= |toks|
    ensures r.Some? ==> r.value < n && rs[r.value] == RedirectOp && toks[r.value] == op
  {
    if n == 0 then None
    else if rs[n - 1] == RedirectOp && toks[n - 1] == op then Some(n - 1)
    else LastOp(toks, rs, op, n - 1)
  }

  /** LastOp finds the last such operator: none after it, and None only when there is none at all. */
  lemma {:induction false} LastOpIsLast(toks: seq<string>, rs: seq<Role>, op: string, n: nat)
    requires |toks| == |rs| && n <= |toks|
    ensures LastOp(toks, rs, op, n).Some? ==>
      forall j :: LastOp(toks, rs, op, n).value < j < n ==> !(rs[j] == RedirectOp && toks[j] == op)
    ensures LastOp(toks, rs, op, n).None? <==> forall j :: 0 <= j < n ==> !(rs[j] == RedirectOp && toks[j] == op)
    decreases n
  {
    if n > 0 && !(rs[n - 1] == RedirectOp && toks[n - 1] == op) {
      LastOpIsLast(toks, rs, op, n - 1);
    }
  }

  /**
   * What the redirect slot of `op` holds after `toks` when it held `before`: the token after
   * the last `op` operator, None if that operator ends the tokens, `before` if there is none.
   */
  function RedirectAfter(toks: seq<string>, op: string, before: Option<string>): Option<string> {
    SlotAfter(toks, LastOp(toks, Roles(toks), op, |toks|), before)
  }

  /** The slot value an operator at index `at` leaves: the next token, None at the end, `before` without one. */
  function SlotAfter(toks: seq<string>, at: Option<nat>, before: Option<string>): Option<string> {
    if at.None? then before
    else if at.value + 1 < |toks| then Some(toks[at.value + 1])
    else None
  }

  /** The name after the words `w`: the old one, or else the first word. */
  function NameAfter(name: Option<string>, w: seq<string>): Option<string> {
    if name.Some? then name else if w == [] then None else Some(w[0])
  }

  /** The stage `cur` becomes once the pipe-free tokens `toks` are read into it. */
  function Absorb(cur: Stage, toks: seq<string>): Stage {
    var w := Words(toks);
    Stage(
      NameAfter(cur.name, w),
      cur.args + w,
      cur.background || Amp in Roles(toks),
      RedirectAfter(toks, "<", cur.redirectIn),
      RedirectAfter(toks, ">", cur.redirectOut),
      RedirectAfter(toks, ">>", cur.redirectAppend))
  }

  /** The arguments of all stages, concatenated in chain order. */
  function AllArgs(ss: seq<Stage>): seq<string> {
    if ss == [] then [] else ss[0].args + AllArgs(ss[1..])
  }

  // ---- one token at a time -------------------------------------------------

  lemma AbsorbNil(cur: Stage)
    ensures Absorb(cur, []) == cur
  {
  }

  /** Shifting the tokens right by a prefix shifts the last operator index by the prefix length. */
  lemma {:induction false} LastOpShift(pre: seq<string>, rest: seq<string>, rp: seq<Role>, op: string, n: nat)
    requires |pre| == |rp| && n <= |rest|
    ensures LastOp(rest, Roles(rest), op, n).Some? ==>
      LastOp(pre + rest, rp + Roles(rest), op, |pre| + n) == Some(|pre| + LastOp(rest, Roles(rest), op, n).value)
    ensures LastOp(rest, Roles(rest), op, n).None? ==>
      LastOp(pre + rest, rp + Roles(rest), op, |pre| + n) == LastOp(pre, rp, op, |pre|)
    decreases n
  {
    var toks, rs := pre + rest, rp + Roles(rest);
    if n == 0 {
      assert toks[..|pre|] == pre && rs[..|pre|] == rp;
      LastOpPrefix(toks, rs, op, |pre|);
    } else {
      assert toks[|pre| + n - 1] == rest[n - 1] && rs[|pre| + n - 1] == Roles(rest)[n - 1];
      LastOpShift(pre, rest, rp, op, n - 1);
    }
  }

  /** LastOp below n only looks at the first n tokens. */
  lemma {:induction false} LastOpPrefix(toks: seq<string>, rs: seq<Role>, op: string, n: nat)
    requires |toks| == |rs| && n <= |toks|
    ensures LastOp(toks, rs, op, n) == LastOp(toks[..n], rs[..n], op, n)
    decreases n
  {
    if n > 0 {
      LastOpPrefix(toks, rs, op, n - 1);
      LastOpPrefix(toks[..n], rs[..n], op, n - 1);
      assert toks[..n][..n - 1] == toks[..n - 1] && rs[..n][..n - 1] == rs[..n - 1];
    }
  }

  /** The redirect slot of `op` after `pre + rest`, from the slot after `pre`. */
  lemma RedirectAfterShift(pre: seq<string>, rp: seq<Role>, rest: seq<string>, op: string, before: Option<string>)
    requires rp == Roles(pre) && Roles(pre + rest) == rp + Roles(rest)
    ensures RedirectAfter(pre + rest, op, before) == RedirectAfter(rest, op, RedirectAfter(pre, op, before))
  {
    var lt := LastOp(pre + rest, Roles(pre + rest), op, |pre + rest|);
    var lr := LastOp(rest, Roles(rest), op, |rest|);
    var lp := LastOp(pre, rp, op, |pre|);
    LastOpSeam(pre, rest, rp, op);
    if lp.Some? && lp.value + 1 == |pre| {
      DanglingOpEnds(pre, rest, lp.value);
    }
    SlotShift(pre, rest, lt, lr, lp, before);
  }

  /** The last operator of `pre + rest` is the last one of `rest`, shifted, or else the last one of `pre`. */
  lemma LastOpSeam(pre: seq<string>, rest: seq<string>, rp: seq<Role>, op: string)
    requires |pre| == |rp| && Roles(pre + rest) == rp + Roles(rest)
    ensures var lr := LastOp(rest, Roles(rest), op, |rest|);
      LastOp(pre + rest, Roles(pre + rest), op, |pre + rest|)
        == if lr.Some? then Some(|pre| + lr.value) else LastOp(pre, rp, op, |pre|)
  {
    LastOpShift(pre, rest, rp, op, |rest|);
  }

  /** The slot after `pre + rest` from the operator positions found in `pre`, in `rest` and in both. */
  lemma SlotShift(pre: seq<string>, rest: seq<string>, lt: Option<nat>, lr: Option<nat>, lp: Option<nat>, before: Option<string>)
    requires lr.Some? ==> lr.value < |rest| && lt == Some(|pre| + lr.value)
    requires lr.None? ==> lt == lp
    requires lp.Some? ==> lp.value < |pre|
    requires lp.Some? && lp.value + 1 == |pre| ==> rest == []
    ensures SlotAfter(pre + rest, lt, before) == SlotAfter(rest, lr, SlotAfter(pre, lp, before))
  {
    if lr.Some? {
      SlotShiftRest(pre, rest, lr.value, before, SlotAfter(pre, lp, before));
    } else {
      SlotShiftPre(pre, rest, lp, before);
    }
  }

  lemma SlotShiftRest(pre: seq<string>, rest: seq<string>, j: nat, b1: Option<string>, b2: Option<string>)
    requires j < |rest|
    ensures SlotAfter(pre + rest, Some(|pre| + j), b1) == SlotAfter(rest, Some(j), b2)
  {
    if j + 1 < |rest| {
      assert (pre + rest)[|pre| + j + 1] == rest[j + 1];
    }
  }

  lemma SlotShiftPre(pre: seq<string>, rest: seq<string>, at: Option<nat>, before: Option<string>)
    requires at.Some? ==> at.value < |pre|
    requires at.Some? && at.value + 1 == |pre| ==> rest == []
    ensures SlotAfter(pre + rest, at, before) == SlotAfter(pre, at, before)
  {
    if at.Some? && at.value + 1 < |pre| {
      assert (pre + rest)[at.value + 1] == pre[at.value + 1];
    } else if at.Some? {
      assert pre + rest == pre;
    }
  }

  /** An operator that ends `pre` has nothing after it when the roles split at the seam. */
  lemma DanglingOpEnds(pre: seq<string>, rest: seq<string>, i: nat)
    requires Roles(pre + rest) == Roles(pre) + Roles(rest)
    requires i + 1 == |pre| && Roles(pre)[i] == RedirectOp
    ensures rest == []
  {
    if rest != [] {
      assert Roles(pre + rest)[i] == RedirectOp;
      TargetFollowsOp(pre + rest, i);
      NoLeadingTarget(rest);
      assert false;
    }
  }

  lemma SelectAppend(a: seq<string>, ra: seq<Role>, b: seq<string>, rb: seq<Role>, role: Role)
    requires |a| == |ra| && |b| == |rb|
    ensures Select(a + b, ra + rb, role) == Select(a, ra, role) + Select(b, rb, role)
  {
    if a != [] {
      assert (a + b)[1..] == a[1..] + b && (ra + rb)[1..] == ra[1..] + rb;
      SelectAppend(a[1..], ra[1..], b, rb, role);
    } else {
      assert a + b == b && ra + rb == rb;
    }
  }

  lemma WordsAppend(pre: seq<string>, rest: seq<string>)
    requires Roles(pre + rest) == Roles(pre) + Roles(rest)
    ensures Words(pre + rest) == Words(pre) + Words(rest)
  {
    SelectAppend(pre, Roles(pre), rest, Roles(rest), Arg);
  }

  lemma AbsorbSplitArgs(cur: Stage, pre: seq<string>, rest: seq<string>)
    requires Words(pre + rest) == Words(pre) + Words(rest)
    ensures Absorb(cur, pre + rest).name == Absorb(Absorb(cur, pre), rest).name
    ensures Absorb(cur, pre + rest).args == Absorb(Absorb(cur, pre), rest).args
  {
    var w, wp, wr := Words(pre + rest), Words(pre), Words(rest);
    NameAfterAppend(cur.name, wp, wr);
    SeqAssoc(cur.args, wp, wr);
  }

  lemma NameAfterAppend(name: Option<string>, a: seq<string>, b: seq<string>)
    ensures NameAfter(NameAfter(name, a), b) == NameAfter(name, a + b)
  {
    if a != [] {
      assert (a + b)[0] == a[0];
    } else {
      assert a + b == b;
    }
  }

  lemma AbsorbSplitBackground(cur: Stage, pre: seq<string>, rest: seq<string>)
    requires Roles(pre + rest) == Roles(pre) + Roles(rest)
    ensures Absorb(cur, pre + rest).background == Absorb(Absorb(cur, pre), rest).background
  {
  }

  /** Absorbing `pre + rest` is absorbing `pre`, then `rest`, when roles split at the seam. */
  lemma AbsorbSplit(cur: Stage, pre: seq<string>, rest: seq<string>)
    requires Roles(pre + rest) == Roles(pre) + Roles(rest)
    ensures Absorb(cur, pre + rest) == Absorb(Absorb(cur, pre), rest)
  {
    WordsAppend(pre, rest);
    AbsorbSplitArgs(cur, pre, rest);
    AbsorbSplitBackground(cur, pre, rest);
    RedirectAfterShift(pre, Roles(pre), rest, "<", cur.redirectIn);
    RedirectAfterShift(pre, Roles(pre), rest, ">", cur.redirectOut);
    RedirectAfterShift(pre, Roles(pre), rest, ">>", cur.redirectAppend);
  }

  lemma AbsorbAmp(cur: Stage)
    ensures Absorb(cur, ["&"]) == cur.(background := true)
  {
    assert Roles(["&"]) == [Amp];
  }

  lemma AbsorbWord(cur: Stage, t: string)
    requires t != "&" && t != "|" && !IsRedirectOp(t)
    ensures Absorb(cur, [t]) == AddArg(cur, t)
  {
    assert Roles([t]) == [Arg];
    assert [t][1..] == [] && [Arg][1..] == [];
    assert Select([t], [Arg], Arg) == [t] + Select([], [], Arg);
  }

  lemma AbsorbRedirect(cur: Stage, op: string, t: string)
    requires IsRedirectOp(op)
    ensures Absorb(cur, [op, t]) == Redirect(cur, op, Some(t))
  {
    var toks := [op, t];
    var rs := [RedirectOp, Target];
    assert Roles(toks) == rs;
    assert toks[1..] == [t] && rs[1..] == [Target] && [t][1..] == [] && [Target][1..] == [];
    assert Select([t], [Target], Arg) == Select([], [], Arg);
    assert Words(toks) == Select([t], [Target], Arg);
    assert LastOp(toks, Roles(toks), op, 2) == Some(0);
    assert forall o :: o != op ==> LastOp(toks, Roles(toks), o, 2) == None;
  }

  /** How many tokens one turn of the parser loop reads: two for an operator and its target. */
  function StepLen(toks: seq<string>): nat
    requires toks != []
  {
    if IsRedirectOp(toks[0]) && |toks| >= 2 then 2 else 1
  }

  /** The stage after one turn of the parser loop on a token other than `|`. */
  function StepStage(cur: Stage, toks: seq<string>): Stage
    requires toks != [] && toks[0] != "|"
  {
    if toks[0] == "&" then cur.(background := true)
    else if IsRedirectOp(toks[0]) then Redirect(cur, toks[0], if |toks| >= 2 then Some(toks[1]) else None)
    else AddArg(cur, toks[0])
  }

  /** One turn of the loop, as Build takes it. */
  lemma BuildStep(toks: seq<string>, cur: Stage)
    requires toks != [] && toks[0] != "|"
    ensures Build(toks, cur) == Build(toks[StepLen(toks)..], StepStage(cur, toks))
  {
  }

  /** Build on a line that starts with `&`. */
  lemma BuildAmp(p: seq<string>, cur: Stage)
    ensures Build(["&"] + p, cur) == Build(p, cur.(background := true))
  {
    assert (["&"] + p)[1..] == p;
  }

  /** Build on a line that starts with an ordinary token. */
  lemma BuildWord(t: string, p: seq<string>, cur: Stage)
    requires t != "&" && t != "|" && !IsRedirectOp(t)
    ensures Build([t] + p, cur) == Build(p, AddArg(cur, t))
  {
    assert ([t] + p)[1..] == p;
  }

  /** Build on a line that starts with `|`. */
  lemma BuildPipe(p: seq<string>, cur: Stage)
    ensures Build(["|"] + p, cur) == [cur] + Build(p, EmptyStage)
  {
    assert (["|"] + p)[1..] == p;
  }

  /** Build on a line that starts with a redirect operator and its target. */
  lemma BuildRedirect(op: string, x: string, q: seq<string>, cur: Stage)
    requires IsRedirectOp(op)
    ensures Build([op] + ([x] + q), cur) == Build(q, Redirect(cur, op, Some(x)))
  {
    var toks := [op] + ([x] + q);
    assert toks[1] == x && toks[2..] == q;
  }

  /** Build on a line made of a redirect operator alone. */
  lemma BuildDangling(op: string, cur: Stage)
    requires IsRedirectOp(op)
    ensures Build([op], cur) == [Redirect(cur, op, None)]
  {
  }

  /** The roles of the tokens one turn of the loop reads. */
  function RolesHead(toks: seq<string>): seq<Role>
    requires toks != []
  {
    if IsRedirectOp(toks[0]) && |toks| >= 2 then [RedirectOp, Target] else [RoleOf(toks[0])]
  }

  lemma RolesUnfold(toks: seq<string>)
    requires toks != []
    ensures |RolesHead(toks)| == StepLen(toks)
    ensures Roles(toks) == RolesHead(toks) + Roles(toks[StepLen(toks)..])
    ensures Roles(toks)[StepLen(toks)..] == Roles(toks[StepLen(toks)..])
  {
  }

  /** The tokens one turn of the loop reads make the stage StepStage describes. */
  lemma AbsorbHead(cur: Stage, toks: seq<string>)
    requires toks != [] && toks[0] != "|" && (IsRedirectOp(toks[0]) ==> |toks| >= 2)
    ensures Absorb(cur, toks[..StepLen(toks)]) == StepStage(cur, toks)
  {
    if toks[0] == "&" {
      assert toks[..1] == ["&"];
      AbsorbAmp(cur);
    } else if IsRedirectOp(toks[0]) {
      assert toks[..2] == [toks[0], toks[1]];
      AbsorbRedirect(cur, toks[0], toks[1]);
    } else {
      assert toks[..1] == [toks[0]];
      AbsorbWord(cur, toks[0]);
    }
  }

  /** One turn of the loop, as Absorb takes it. */
  lemma AbsorbStep(cur: Stage, toks: seq<string>)
    requires toks != [] && toks[0] != "|" && (IsRedirectOp(toks[0]) ==> |toks| >= 2)
    ensures Absorb(cur, toks) == Absorb(StepStage(cur, toks), toks[StepLen(toks)..])
  {
    var k := StepLen(toks);
    var pre, rest := toks[..k], toks[k..];
    assert toks == pre + rest;
    RolesUnfold(toks);
    assert Roles(pre) == RolesHead(toks);
    AbsorbSplit(cur, pre, rest);
    AbsorbHead(cur, toks);
  }

  lemma AbsorbDangling(cur: Stage, op: string)
    requires IsRedirectOp(op)
    ensures Absorb(cur, [op]) == Redirect(cur, op, None)
  {
    assert Roles([op]) == [RedirectOp];
    assert [op][1..] == [] && [RedirectOp][1..] == [];
    assert Select([op], [RedirectOp], Arg) == Select([], [], Arg);
    assert LastOp([op], [RedirectOp], op, 1) == Some(0);
    assert forall o :: o != op ==> LastOp([op], [RedirectOp], o, 1) == None;
  }

  /** No token sequence starts with a redirect target. */
  lemma NoLeadingTarget(toks: seq<string>)
    requires toks != []
    ensures Roles(toks)[0] != Target
  {
  }

  /** A redirect operator followed by any token makes that token its target. */
  lemma {:induction false} TargetFollowsOp(toks: seq<string>, i: nat)
    requires i + 1 < |toks| && Roles(toks)[i] == RedirectOp
    ensures Roles(toks)[i + 1] == Target
    decreases |toks|
  {
    var k := StepLen(toks);
    RolesUnfold(toks);
    if i >= k {
      TargetFollowsOp(toks[k..], i - k);
    }
  }

  /** A prefix that holds the whole first turn of the loop begins with that same turn. */
  lemma HeadOfPrefix(toks: seq<string>, i: nat)
    requires 0 < i <= |toks| && StepLen(toks) <= i
    ensures StepLen(toks[..i]) == StepLen(toks) && RolesHead(toks[..i]) == RolesHead(toks)
  {
    assert toks[..i][0] == toks[0];
  }

  /** A cut that is not before a target lies past the first turn, and stays off a target after it. */
  lemma StepWithin(toks: seq<string>, i: nat)
    requires 0 < i <= |toks| && (i < |toks| ==> Roles(toks)[i] != Target)
    ensures StepLen(toks) <= i
    ensures i < |toks| ==> Roles(toks[StepLen(toks)..])[i - StepLen(toks)] != Target
  {
    RolesUnfold(toks);
    if StepLen(toks) == 2 {
      assert Roles(toks)[1] == Target;
    }
  }

  /** The roles of a prefix that holds the first turn: that turn, then the roles of the rest of the prefix. */
  lemma RolesPrefixHead(toks: seq<string>, i: nat)
    requires 0 < i <= |toks| && StepLen(toks) <= i
    ensures Roles(toks[..i]) == RolesHead(toks) + Roles(toks[StepLen(toks)..][..i - StepLen(toks)])
  {
    var k := StepLen(toks);
    var pre := toks[..i];
    HeadOfPrefix(toks, i);
    RolesUnfold(pre);
    assert pre[k..] == toks[k..][..i - k];
  }

  /** A split of the roles after the first turn extends to one of the whole sequence. */
  lemma RolesSplitJoin(toks: seq<string>, i: nat)
    requires 0 < i <= |toks| && StepLen(toks) <= i
    requires Roles(toks[StepLen(toks)..])
          == Roles(toks[StepLen(toks)..][..i - StepLen(toks)]) + Roles(toks[StepLen(toks)..][i - StepLen(toks)..])
    requires Roles(toks) == RolesHead(toks) + Roles(toks[StepLen(toks)..])
    requires Roles(toks[..i]) == RolesHead(toks) + Roles(toks[StepLen(toks)..][..i - StepLen(toks)])
    ensures Roles(toks) == Roles(toks[..i]) + Roles(toks[i..])
  {
    var k := StepLen(toks);
    var tail := toks[k..];
    assert tail[i - k..] == toks[i..];
    SeqAssoc(RolesHead(toks), Roles(tail[..i - k]), Roles(toks[i..]));
  }

  /** Roles split wherever the token is not a redirect target. */
  lemma {:induction false} RolesSplit(toks: seq<string>, i: nat)
    requires i <= |toks| && (i < |toks| ==> Roles(toks)[i] != Target)
    ensures Roles(toks) == Roles(toks[..i]) + Roles(toks[i..])
    decreases i
  {
    if i == 0 {
      assert toks[..0] == [] && toks[0..] == toks;
    } else {
      StepWithin(toks, i);
      var k := StepLen(toks);
      RolesSplit(toks[k..], i - k);
      RolesUnfold(toks);
      RolesPrefixHead(toks, i);
      RolesSplitJoin(toks, i);
    }
  }

  /**
   * Reading pipe-free tokens `pre` and then `rest` is reading `rest` into the stage
   * that `pre` made of `cur`.
   */
  lemma {:induction false} BuildAppend(pre: seq<string>, rest: seq<string>, cur: Stage)
    requires Pipe !in Roles(pre)
    requires Roles(pre + rest) == Roles(pre) + Roles(rest)
    ensures Build(pre + rest, cur) == Build(rest, Absorb(cur, pre))
    decreases |pre|
  {
    if pre == [] {
      AbsorbNil(cur);
      assert pre + rest == rest;
    } else if IsRedirectOp(pre[0]) && |pre| == 1 {
      DanglingEndsLine(pre, rest);
      assert pre + rest == pre;
      AbsorbDangling(cur, pre[0]);
    } else {
      PipeFreeStep(pre);
      RolesSplitStep(pre, rest);
      BuildStepAppend(pre, rest, cur);
      AbsorbStep(cur, pre);
      BuildAppend(pre[StepLen(pre)..], rest, StepStage(cur, pre));
    }
  }

  /** A redirect operator without a target can only end the tokens. */
  lemma DanglingEndsLine(pre: seq<string>, rest: seq<string>)
    requires |pre| == 1 && IsRedirectOp(pre[0])
    requires Roles(pre + rest) == Roles(pre) + Roles(rest)
    ensures rest == []
  {
    if rest != [] {
      assert Roles(pre) == [RedirectOp];
      TargetFollowsOp(pre + rest, 0);
      NoLeadingTarget(rest);
      assert false;
    }
  }

  lemma SliceAppend<T>(a: seq<T>, b: seq<T>, k: nat)
    requires k <= |a|
    ensures (a + b)[k..] == a[k..] + b
  {
  }

  /** Appending tokens does not change how many the first turn reads, when that turn is complete. */
  lemma StepLenAppend(pre: seq<string>, rest: seq<string>)
    requires pre != [] && (IsRedirectOp(pre[0]) ==> |pre| >= 2)
    ensures StepLen(pre + rest) == StepLen(pre)
  {
    assert (pre + rest)[0] == pre[0];
  }

  /** Tokens free of the pipe role do not start with `|`, and stay so after one turn. */
  lemma PipeFreeStep(pre: seq<string>)
    requires pre != [] && Pipe !in Roles(pre)
    ensures pre[0] != "|"
    ensures Pipe !in Roles(pre[StepLen(pre)..])
  {
    RolesUnfold(pre);
    assert Roles(pre)[0] != Pipe;
  }

  /** A seam between `pre` and `rest` survives one turn of the loop on `pre`. */
  lemma RolesSplitStep(pre: seq<string>, rest: seq<string>)
    requires Roles(pre + rest) == Roles(pre) + Roles(rest)
    requires pre != [] && (IsRedirectOp(pre[0]) ==> |pre| >= 2)
    ensures Roles(pre[StepLen(pre)..] + rest) == Roles(pre[StepLen(pre)..]) + Roles(rest)
  {
    var toks := pre + rest;
    var k := StepLen(pre);
    StepLenAppend(pre, rest);
    RolesUnfold(pre);
    RolesUnfold(toks);
    SliceAppend(pre, rest, k);
    SliceAppend(Roles(pre), Roles(rest), k);
    calc {
      Roles(pre[k..] + rest);
      Roles(toks[k..]);
      Roles(toks)[k..];
      (Roles(pre) + Roles(rest))[k..];
      Roles(pre)[k..] + Roles(rest);
      Roles(pre[k..]) + Roles(rest);
    }
  }

  /** One turn of the loop on `pre + rest` is one turn on `pre`, with `rest` still to come. */
  lemma BuildStepAppend(pre: seq<string>, rest: seq<string>, cur: Stage)
    requires pre != [] && pre[0] != "|" && (IsRedirectOp(pre[0]) ==> |pre| >= 2)
    ensures Build(pre + rest, cur) == Build(pre[StepLen(pre)..] + rest, StepStage(cur, pre))
  {
    var toks := pre + rest;
    var k := StepLen(pre);
    StepLenAppend(pre, rest);
    assert IsRedirectOp(pre[0]) ==> toks[1] == pre[1];
    assert StepStage(cur, toks) == StepStage(cur, pre);
    BuildStep(toks, cur);
    SliceAppend(pre, rest, k);
  }

  // ---- the properties of the grammar ----------------------------------------

  /**
   * Tokens holding no `|` in the pipe role give one stage: its arguments are the
   * ordinary tokens in order after those it had, its name is its old name or else the
   * first of them, `&` anywhere sets background, and each redirect slot holds the token
   * after the last operator for it (None if that operator ends the line), or its old value.
   */
  lemma SingleStage(toks: seq<string>, cur: Stage)
    requires Pipe !in Roles(toks)
    ensures Build(toks, cur) == [Absorb(cur, toks)]
  {
    assert toks + [] == toks;
    BuildAppend(toks, [], cur);
  }

  /**
   * At the first `|` in the pipe role the current stage is closed with what precedes it,
   * and everything after it is read into a fresh successor.
   */
  lemma SplitAtPipe(toks: seq<string>, cur: Stage, i: nat)
    requires i < |toks| && Roles(toks)[i] == Pipe
    requires forall j :: 0 <= j < i ==> Roles(toks)[j] != Pipe
    ensures Build(toks, cur) == [Absorb(cur, toks[..i])] + Build(toks[i + 1..], EmptyStage)
  {
    RolesSplit(toks, i);
    assert toks == toks[..i] + toks[i..];
    assert Pipe !in Roles(toks[..i]) by {
      assert Roles(toks[..i]) == Roles(toks)[..i];
    }
    BuildAppend(toks[..i], toks[i..], cur);
    assert toks[i..][0] == "|" by { assert Roles(toks[i..])[0] == Pipe; }
    assert toks[i..][1..] == toks[i + 1..];
  }

  /** There is one stage more than there are `|` tokens in the pipe role. */
  lemma {:induction false} StageCount(toks: seq<string>, cur: Stage)
    ensures |Build(toks, cur)| == Count(Roles(toks), Pipe) + 1
    decreases |toks|
  {
    if toks == [] {
    } else if IsRedirectOp(toks[0]) {
      if |toks| > 1 {
        StageCount(toks[2..], Redirect(cur, toks[0], Some(toks[1])));
      }
    } else if toks[0] == "&" {
      StageCount(toks[1..], cur.(background := true));
    } else if toks[0] == "|" {
      StageCount(toks[1..], EmptyStage);
    } else {
      StageCount(toks[1..], AddArg(cur, toks[0]));
    }
  }

  /** The ordinary tokens are those of one turn of the loop, then those of the rest. */
  lemma WordsUnfold(toks: seq<string>)
    requires toks != []
    ensures Words(toks) == (if StepLen(toks) == 1 && RoleOf(toks[0]) == Arg then [toks[0]] else [])
                         + Words(toks[StepLen(toks)..])
  {
    var k := StepLen(toks);
    RolesUnfold(toks);
    assert toks == toks[..k] + toks[k..];
    SelectAppend(toks[..k], RolesHead(toks), toks[k..], Roles(toks[k..]), Arg);
    if k == 2 {
      var h := toks[..2];
      assert h[1..] == [toks[1]] && [toks[1]][1..] == [];
      assert Select(h, [RedirectOp, Target], Arg) == Select(h[1..], [Target], Arg);
      assert Select([toks[1]], [Target], Arg) == Select([], [], Arg);
    } else {
      assert toks[..1] == [toks[0]] && [toks[0]][1..] == [];
      assert Select([toks[0]], [RoleOf(toks[0])], Arg) == (if RoleOf(toks[0]) == Arg then [toks[0]] else []) + Select([], [], Arg);
    }
  }

  /**
   * Operators are recognised as whole tokens only: no argument is `&`, `<`, `>`, `>>` or
   * `|`, and any other token, such as `a>b`, is an ordinary one unless it is a redirect target.
   */
  lemma {:induction false} WordsOrdinary(toks: seq<string>)
    ensures forall k :: 0 <= k < |Words(toks)| ==> RoleOf(Words(toks)[k]) == Arg
    decreases |toks|
  {
    if toks != [] {
      WordsUnfold(toks);
      WordsOrdinary(toks[StepLen(toks)..]);
    }
  }

  /** Every ordinary token ends up in exactly one stage's arguments, in input order. */
  lemma {:induction false} ArgsInOrder(toks: seq<string>, cur: Stage)
    ensures AllArgs(Build(toks, cur)) == cur.args + Words(toks)
    decreases |toks|
  {
    if toks == [] {
    } else if IsRedirectOp(toks[0]) && |toks| == 1 {
      ArgsDangling(toks, cur);
    } else if toks[0] == "|" {
      ArgsInOrder(toks[1..], EmptyStage);
      ArgsPipe(toks, cur);
    } else {
      ArgsInOrder(toks[StepLen(toks)..], StepStage(cur, toks));
      ArgsStep(toks, cur);
    }
  }

  lemma ArgsDangling(toks: seq<string>, cur: Stage)
    requires |toks| == 1 && IsRedirectOp(toks[0])
    ensures AllArgs(Build(toks, cur)) == cur.args + Words(toks)
  {
    WordsUnfold(toks);
    assert toks[1..] == [];
  }

  lemma ArgsPipe(toks: seq<string>, cur: Stage)
    requires toks != [] && toks[0] == "|"
    requires AllArgs(Build(toks[1..], EmptyStage)) == Words(toks[1..])
    ensures AllArgs(Build(toks, cur)) == cur.args + Words(toks)
  {
    assert toks == ["|"] + toks[1..];
    BuildPipe(toks[1..], cur);
    AllArgsCons(cur, Build(toks[1..], EmptyStage));
    WordsUnfold(toks);
  }

  lemma AllArgsCons(s: Stage, ss: seq<Stage>)
    ensures AllArgs([s] + ss) == s.args + AllArgs(ss)
  {
    assert ([s] + ss)[1..] == ss;
  }

  /** One turn of the loop on a token other than `|` appends that token's word, if any. */
  lemma StepStageArgs(cur: Stage, toks: seq<string>)
    requires toks != [] && toks[0] != "|"
    ensures StepStage(cur, toks).args
         == cur.args + (if StepLen(toks) == 1 && RoleOf(toks[0]) == Arg then [toks[0]] else [])
  {
  }

  lemma ArgsStep(toks: seq<string>, cur: Stage)
    requires toks != [] && toks[0] != "|" && (IsRedirectOp(toks[0]) ==> |toks| >= 2)
    requires AllArgs(Build(toks[StepLen(toks)..], StepStage(cur, toks)))
          == StepStage(cur, toks).args + Words(toks[StepLen(toks)..])
    ensures AllArgs(Build(toks, cur)) == cur.args + Words(toks)
  {
    BuildStep(toks, cur);
    WordsUnfold(toks);
    StepStageArgs(cur, toks);
    var w := if StepLen(toks) == 1 && RoleOf(toks[0]) == Arg then [toks[0]] else [];
    SeqAssoc(cur.args, w, Words(toks[StepLen(toks)..]));
  }

  /** A `|` in the pipe role at the end of the line leaves an empty last stage. */
  lemma {:induction false} TrailingPipe(toks: seq<string>, cur: Stage)
    requires toks != [] && Roles(toks)[|toks| - 1] == Pipe
    ensures Build(toks, cur)[|Build(toks, cur)| - 1] == EmptyStage
    decreases |toks|
  {
    RolesUnfold(toks);
    if toks[0] == "|" {
      if |toks| > 1 {
        TrailingPipe(toks[1..], EmptyStage);
      }
    } else {
      BuildStep(toks, cur);
      var k := StepLen(toks);
      if k < |toks| {
        TrailingPipe(toks[k..], StepStage(cur, toks));
      }
    }
  }
}

/**
 * parse_command as the C code runs it: a strtok loop over the characters of the line
 * that fills a command_t record field by field and, at `|`, hands the rest of the line
 * to a freshly allocated successor.
 */
module Parser {
  import opened Wrappers
  import opened Tokenizer
  import opened Stages

  /**
   * The stages the loop of parse_command still produces when strtok has just returned
   * `token`, its cursor in `line` is `pos`, and the record being filled holds `cur`.
   * After an operator the loop calls strtok once for the target, then once more at
   * the bottom of the loop; at `|` it takes the rest of the line up to the next newline
   * (strtok with "\n") and parses that into a fresh successor, which sees the empty
   * string when strtok finds nothing.
   */
  function Continue(line: string, token: Option<string>, pos: nat, cur: Stage): (ss: seq<Stage>)
    requires pos <= |line| && (token.Some? ==> 0 < pos)
    ensures |ss| >= 1
    decreases |line|, 1, |line| - pos, if token.Some? then 1 else 0
  {
    if token.None? then [cur]
    else
      var t := token.value;
      var r := Strtok(line, pos, Blanks);
      if t == "&" then Continue(line, r.0, r.1, cur.(background := true))
      else if IsRedirectOp(t) then
        var r2 := Strtok(line, r.1, Blanks);
        Continue(line, r2.0, r2.1, Redirect(cur, t, r.0))
      else if t == "|" then [cur] + ParseLine(RestAfterPipe(line, pos))
      else Continue(line, r.0, r.1, AddArg(cur, t))
  }

  /**
   * What the successor of a `|` parses: strtok with "\n" from the cursor, which skips
   * newlines and stops before the next one; NULL (nothing left) reads as the empty line.
   */
  function RestAfterPipe(line: string, pos: nat): (s: string)
    requires pos <= |line|
    ensures |s| <= |line| - pos
    ensures forall i :: 0 <= i < |s| ==> s[i] != '\n'
  {
    var r := Strtok(line, pos, {'\n'});
    if r.0.Some? then r.0.value else ""
  }

  /** The chain parse_command builds from `line`, starting from the stage init_command leaves. */
  function ParseLine(line: string): (ss: seq<Stage>)
    ensures |ss| >= 1
    decreases |line|, 2, 0, 0
  {
    var r := Strtok(line, 0, Blanks);
    Continue(line, r.0, r.1, EmptyStage)
  }

  /**
   * The argument vector of every stage has room for its arguments, and the last stage
   * also for the NULL written after them; a stage closed by `|` returns before that write.
   */
  predicate FitsArgs(ss: seq<Stage>) {
    forall i :: 0 <= i < |ss| ==> |ss[i].args| <= MAX_ARGS && (i == |ss| - 1 ==> |ss[i].args| < MAX_ARGS)
  }

  /** No ordinary character follows a newline: the shape of a line read by fgets. */
  predicate OneLine(line: string) {
    forall i, j :: 0 <= i < j < |line| && line[i] == '\n' ==> line[j] in Blanks
  }

  /** The loop only appends to the arguments of the record it is filling. */
  lemma {:induction false} ContinueHead(line: string, token: Option<string>, pos: nat, cur: Stage)
    requires pos <= |line| && (token.Some? ==> 0 < pos)
    ensures cur.args <= Continue(line, token, pos, cur)[0].args
    decreases |line| - pos, if token.Some? then 1 else 0
  {
    if token.Some? {
      var t := token.value;
      var r := Strtok(line, pos, Blanks);
      if t == "&" {
        ContinueHead(line, r.0, r.1, cur.(background := true));
      } else if IsRedirectOp(t) {
        var r2 := Strtok(line, r.1, Blanks);
        ContinueHead(line, r2.0, r2.1, Redirect(cur, t, r.0));
      } else if t != "|" {
        ContinueHead(line, r.0, r.1, AddArg(cur, t));
      }
    }
  }

  /** Within one line, what strtok with "\n" returns after `|` holds exactly the tokens still ahead. */
  lemma RestOfLine(line: string, pos: nat)
    requires OneLine(line) && pos <= |line|
    ensures Tokens(RestAfterPipe(line, pos), Blanks) == Tokens(line[pos..], Blanks)
  {
    var start := SkipDelims(line, pos, {'\n'});
    SkipTokens(line, pos, start, Blanks);
    if start < |line| {
      var end := FindDelim(line, start, {'\n'});
      var rest := line[start..end];
      assert line[start..] == rest + line[end..];
      if end < |line| {
        assert forall j :: 0 <= j < |line| - end ==> line[end..][j] in Blanks;
        AllDelimsNoTokens(line[end..], Blanks);
        TokensAppend(rest, line[end..], Blanks);
      } else {
        assert rest + line[end..] == rest;
      }
    }
  }

  /**
   * On a single line, the loop of parse_command yields the token grammar applied to the
   * tokens it has still to see.
   */
  lemma {:induction false} ContinueTokens(line: string, token: Option<string>, pos: nat, cur: Stage)
    requires pos <= |line| && (token.Some? ==> 0 < pos) && (token.None? ==> pos == |line|)
    requires OneLine(line)
    ensures Continue(line, token, pos, cur) == Build(Pending(line, token, pos, Blanks), cur)
    decreases |line|, 1, |line| - pos, if token.Some? then 1 else 0
  {
    if token.Some? {
      var t := token.value;
      var r := Strtok(line, pos, Blanks);
      StrtokTokens(line, pos, Blanks);
      var p := Tokens(line[pos..], Blanks);
      assert Pending(line, token, pos, Blanks) == [t] + p;
      if t == "&" {
        BuildAmp(p, cur);
        ContinueTokens(line, r.0, r.1, cur.(background := true));
      } else if IsRedirectOp(t) {
        var r2 := Strtok(line, r.1, Blanks);
        if r.0.Some? {
          StrtokTokens(line, r.1, Blanks);
          BuildRedirect(t, r.0.value, Pending(line, r2.0, r2.1, Blanks), cur);
        } else {
          BuildDangling(t, cur);
          assert p == [];
        }
        ContinueTokens(line, r2.0, r2.1, Redirect(cur, t, r.0));
      } else if t == "|" {
        RestOfLine(line, pos);
        BuildPipe(p, cur);
        ParseLineTokens(RestAfterPipe(line, pos));
      } else {
        BuildWord(t, p, cur);
        ContinueTokens(line, r.0, r.1, AddArg(cur, t));
      }
    }
  }

  /**
   * On a single line, parse_command builds the chain the token grammar describes for
   * the strtok tokens of the line; the properties proved of Build then hold of it.
   */
  lemma {:induction false} ParseLineTokens(line: string)
    requires OneLine(line)
    ensures ParseLine(line) == Build(Tokens(line, Blanks), EmptyStage)
    decreases |line|, 2, 0, 0
  {
    var r := Strtok(line, 0, Blanks);
    StrtokTokens(line, 0, Blanks);
    assert line[0..] == line;
    ContinueTokens(line, r.0, r.1, EmptyStage);
  }

  /** An ordinary token that the record has room for is appended, and the loop goes on. */
  lemma WordStep(line: string, pos: nat, t: string, cur: Stage)
    requires 0 < pos <= |line| && t != "&" && t != "|" && !IsRedirectOp(t)
    requires FitsArgs(Continue(line, Some(t), pos, cur))
    ensures |cur.args| < MAX_ARGS
    ensures Continue(line, Some(t), pos, cur)
         == Continue(line, Strtok(line, pos, Blanks).0, Strtok(line, pos, Blanks).1, AddArg(cur, t))
  {
    var r := Strtok(line, pos, Blanks);
    ContinueHead(line, r.0, r.1, AddArg(cur, t));
  }

  /** At `|` the record is closed and the successor parses the rest of the line, which fits. */
  lemma PipeStep(line: string, pos: nat, cur: Stage)
    requires 0 < pos <= |line|
    requires FitsArgs(Continue(line, Some("|"), pos, cur))
    ensures Continue(line, Some("|"), pos, cur) == [cur] + ParseLine(RestAfterPipe(line, pos))
    ensures FitsArgs(ParseLine(RestAfterPipe(line, pos)))
  {
    var ss := Continue(line, Some("|"), pos, cur);
    var tail := ParseLine(RestAfterPipe(line, pos));
    assert forall i :: 0 <= i < |tail| ==> tail[i] == ss[i + 1];
  }

  /** The strings held by the filled slots of an argument vector. */
  function Present(s: seq<Option<string>>): (r: seq<string>)
    requires forall i :: 0 <= i < |s| ==> s[i].Some?
    ensures |r| == |s| && forall i :: 0 <= i < |s| ==> r[i] == s[i].value
  {
    if s == [] then [] else Present(s[..|s| - 1]) + [s[|s| - 1].value]
  }

  /** struct command_t: one stage record and the link to its successor. */
  class Command {
    var name: Option<string>
    const args: array<Option<string>>
    var argCount: nat
    var background: bool
    var redirectIn: Option<string>
    var redirectOut: Option<string>
    var redirectAppend: Option<string>
    var next: Command?
    ghost var Repr: set<object>
    /** What the argument slots held when the record was allocated (malloc leaves them uninitialised). */
    ghost var Slots: seq<Option<string>>

    /** The slots below argCount hold an argument each. */
    ghost predicate Filled()
      reads this, args
    {
      argCount <= args.Length && forall i :: 0 <= i < argCount ==> args[i].Some?
    }

    /** The stage this record holds, without its successor. */
    ghost function Current(): Stage
      reads this, args
      requires Filled()
    {
      Stage(name, Present(args[..argCount]), background, redirectIn, redirectOut, redirectAppend)
    }

    /** Each record owns its argument vector and the chain after it, and no two share one. */
    ghost predicate Valid()
      reads this, Repr
      decreases Repr
    {
      this in Repr && args in Repr && args.Length == MAX_ARGS && Filled() &&
      (next != null ==>
        next in Repr && next.Repr <= Repr && this !in next.Repr && args !in next.Repr && next.Valid())
    }

    /** The stages of the chain that starts here. */
    ghost function Stages(): (ss: seq<Stage>)
      reads this, Repr
      requires Valid()
      decreases Repr
    {
      [Current()] + (if next == null then [] else next.Stages())
    }

    /**
     * How parse_command leaves the chain from here on: the last record has a NULL after its
     * arguments, and a record closed by `|` returned before that write, so its slots from
     * arg_count on still hold what they held when it was allocated.
     */
    ghost predicate Terminated()
      reads this, Repr
      requires Valid()
      decreases Repr
    {
      if next == null then argCount < MAX_ARGS && args[argCount] == None
      else |Slots| == MAX_ARGS && (forall i :: argCount <= i < MAX_ARGS ==> args[i] == Slots[i]) && next.Terminated()
    }

    /** A newly allocated record (malloc at shellish-skeleton.c:72); parse_command initialises it. */
    constructor()
      ensures fresh(args) && args.Length == MAX_ARGS && Slots == args[..]
    {
      name := None;
      var slots := new Option<string>[MAX_ARGS];
      args := slots;
      argCount := 0;
      background := false;
      redirectIn, redirectOut, redirectAppend := None, None, None;
      next := null;
      Repr := {this};
      Slots := slots[..];
    }

    /** init_command: every field back to empty; the argument slots are left as they were. */
    method Init()
      requires args.Length == MAX_ARGS
      modifies this
      ensures name == None && argCount == 0 && !background && next == null
      ensures redirectIn == None && redirectOut == None && redirectAppend == None
      ensures Valid() && Repr == {this, args} && Stages() == [EmptyStage] && Slots == old(Slots)
    {
      name := None;
      argCount := 0;
      background := false;
      redirectIn := None;
      redirectOut := None;
      redirectAppend := None;
      next := null;
      Repr := {this, args};
    }

    /**
     * parse_command: fills this record and a fresh chain after it with the stages of
     * `line`.  The record of the last stage gets a NULL after its arguments; one closed
     * by `|` does not, and no slot past the arguments is touched.
     */
    method Parse(line: string)
      requires args.Length == MAX_ARGS
      requires FitsArgs(ParseLine(line))
      modifies this, args
      ensures Valid() && fresh(Repr - {this, args})
      ensures Stages() == ParseLine(line)
      ensures next == null ==> argCount < MAX_ARGS && args[argCount] == None
      ensures forall i :: argCount < i < MAX_ARGS ==> args[i] == old(args[i])
      ensures next != null ==> forall i :: argCount <= i < MAX_ARGS ==> args[i] == old(args[i])
      ensures next != null ==> next.Terminated()
      ensures Slots == old(Slots)
      decreases |line|, 1
    {
      Init();
      var r := Strtok(line, 0, Blanks);
      var token, pos := r.0, r.1;
      while token.Some?
        invariant Valid() && Repr == {this, args} && next == null
        invariant pos <= |line| && (token.Some? ==> 0 < pos)
        invariant Continue(line, token, pos, Current()) == ParseLine(line)
        invariant forall i :: argCount <= i < MAX_ARGS ==> args[i] == old(args[i])
        invariant Slots == old(Slots)
        decreases |line| - pos, if token.Some? then 1 else 0
      {
        var t := token.value;
        if t == "|" {
          PipeStep(line, pos, Current());
          Link(RestAfterPipe(line, pos));
          return;
        }
        token, pos := Consume(line, t, pos);
      }
      assert ParseLine(line) == [Current()];
      assert |ParseLine(line)[0].args| < MAX_ARGS;
      Terminate();
    }

    /**
     * One pass of the loop of parse_command for a token other than `|`: the token (and,
     * after an operator, its target) goes into the record, and strtok yields the next one.
     */
    method Consume(line: string, t: string, pos: nat) returns (token: Option<string>, pos': nat)
      requires Valid() && next == null && Repr == {this, args}
      requires 0 < pos <= |line| && t != "|"
      requires FitsArgs(Continue(line, Some(t), pos, Current()))
      modifies this, args
      ensures Valid() && next == null && Repr == {this, args}
      ensures pos <= pos' <= |line| && (token.Some? ==> pos < pos')
      ensures Continue(line, token, pos', Current()) == Continue(line, Some(t), pos, old(Current()))
      ensures old(argCount) <= argCount && Slots == old(Slots)
      ensures forall i :: argCount <= i < MAX_ARGS ==> args[i] == old(args[i])
      ensures t == "&" ==>
        Current() == old(Current()).(background := true) && (token, pos') == Strtok(line, pos, Blanks)
      ensures IsRedirectOp(t) ==>
        Current() == Redirect(old(Current()), t, Strtok(line, pos, Blanks).0) &&
        (token, pos') == Strtok(line, Strtok(line, pos, Blanks).1, Blanks)
      ensures t != "&" && !IsRedirectOp(t) ==>
        Current() == AddArg(old(Current()), t) && (token, pos') == Strtok(line, pos, Blanks)
    {
      var r;
      pos' := pos;
      if t == "&" {
        background := true;
      } else if IsRedirectOp(t) {
        r := Strtok(line, pos, Blanks);
        SetRedirect(t, r.0);
        pos' := r.1;
      } else {
        WordStep(line, pos, t, Current());
        AddWord(t);
      }
      r := Strtok(line, pos', Blanks);
      token, pos' := r.0, r.1;
    }

    /** The `|` branch: a fresh successor, which parses what follows on the line. */
    method Link(rest: string)
      requires Valid() && next == null && Repr == {this, args} && FitsArgs(ParseLine(rest))
      modifies this
      ensures Valid() && fresh(Repr - {this, args}) && next != null
      ensures Current() == old(Current()) && argCount == old(argCount)
      ensures Stages() == [Current()] + ParseLine(rest)
      ensures next.Terminated() && Slots == old(Slots)
      decreases |rest|, 3
    {
      var n := Parsed(rest);
      Attach(n);
    }

    /** `cmd->next = ...`: a separately owned chain becomes the successor. */
    method Attach(n: Command)
      requires Valid() && next == null && Repr == {this, args}
      requires n.Valid() && this !in n.Repr && args !in n.Repr && n.Terminated()
      modifies this
      ensures Valid() && Repr == {this, args} + n.Repr && next == n && n.Terminated()
      ensures Current() == old(Current()) && argCount == old(argCount) && Slots == old(Slots)
      ensures Stages() == [Current()] + old(n.Stages())
    {
      Repr := Repr + n.Repr;
      next := n;
    }

    /** malloc and parse_command for the stage after a `|`: a whole new chain. */
    static method Parsed(rest: string) returns (n: Command)
      requires FitsArgs(ParseLine(rest))
      ensures n.Valid() && fresh(n.Repr) && n.Stages() == ParseLine(rest)
      ensures n.Terminated()
      decreases |rest|, 2
    {
      n := new Command();
      n.Parse(rest);
    }

    /** The `<`, `>` and `>>` branches of parse_command: the target (or NULL) into its slot. */
    method SetRedirect(op: string, target: Option<string>)
      requires Valid() && next == null && Repr == {this, args} && IsRedirectOp(op)
      modifies this
      ensures Valid() && next == null && Repr == {this, args} && argCount == old(argCount)
      ensures Current() == Redirect(old(Current()), op, target) && Slots == old(Slots)
    {
      if op == "<" {
        redirectIn := target;
      } else if op == ">" {
        redirectOut := target;
      } else {
        redirectAppend := target;
      }
    }

    /** The ordinary-token branch: the first one becomes the name, each one the next argument. */
    method AddWord(t: string)
      requires Valid() && next == null && Repr == {this, args} && argCount < MAX_ARGS
      modifies this, args
      ensures Valid() && next == null && Repr == {this, args} && argCount == old(argCount) + 1
      ensures Current() == AddArg(old(Current()), t) && Slots == old(Slots)
      ensures forall i :: argCount <= i < MAX_ARGS ==> args[i] == old(args[i])
    {
      ghost var before := args[..argCount];
      if name.None? {
        name := Some(t);
      }
      args[argCount] := Some(t);
      argCount := argCount + 1;
      assert args[..argCount] == before + [Some(t)];
    }

    /** The NULL after the arguments of the last stage (shellish-skeleton.c:87). */
    method Terminate()
      requires Valid() && next == null && Repr == {this, args} && |Current().args| < MAX_ARGS
      modifies args
      ensures Valid() && Current() == old(Current())
      ensures argCount < MAX_ARGS && args[argCount] == None
      ensures forall i :: 0 <= i < MAX_ARGS && i != argCount ==> args[i] == old(args[i])
    {
      ghost var before := args[..argCount];
      args[argCount] := None;
      assert args[..argCount] == before;
    }
  }
}

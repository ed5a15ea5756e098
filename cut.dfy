/**
 * The builtin `cut`: the scan of its arguments for `-d` and `-f`, the split of the
 * field list on `,` with atoi, and the selection of fields on each input line.
 */
module Cut {
  import opened Wrappers
  import opened Tokenizer

  /** Capacity of the `selected` array of field numbers. */
  const MAX_FIELDS: nat := 100

  /** What cut prints when no field list was given. */
  const MissingFields: string := "cut: missing -f option\n"

  // ---- the option scan ------------------------------------------------------

  /**
   * The index of the last `flag` among args[1..n) that has an argument after it (the loop
   * starts at 1, past the command name, and ignores a flag in the last position).
   */
  function LastFlag(args: seq<string>, flag: string, n: nat): (r: Option<nat>)
    requires n <= 1 || n <= |args|
    ensures r.Some? ==> 1 <= r.value < n && r.value + 1 < |args| && args[r.value] == flag
    ensures r.Some? ==> forall j :: r.value < j < n && j + 1 < |args| ==> args[j] != flag
    ensures r.None? ==> forall j :: 1 <= j < n && j + 1 < |args| ==> args[j] != flag
  {
    if n <= 1 then None
    else if args[n - 1] == flag && n < |args| then Some(n - 1)
    else LastFlag(args, flag, n - 1)
  }

  /** The argument after the last usable `flag` among args[1..n), if there is one. */
  function FlagValue(args: seq<string>, flag: string, n: nat): Option<string>
    requires n <= 1 || n <= |args|
  {
    var i := LastFlag(args, flag, n);
    if i.Some? then Some(args[i.value + 1]) else None
  }

  /** The first character of a string, or NUL for the empty one (what `s[0]` reads in C). */
  function FirstChar(s: string): char {
    if s == [] then '\0' else s[0]
  }

  /** The delimiter in force after args[1..n) are scanned: tab unless a usable `-d` was seen. */
  function DelimiterAfter(args: seq<string>, n: nat): char
    requires n <= 1 || n <= |args|
  {
    var v := FlagValue(args, "-d", n);
    if v.Some? then FirstChar(v.value) else '\t'
  }

  /** The delimiter of the whole argument list. */
  function Delimiter(args: seq<string>): char {
    DelimiterAfter(args, |args|)
  }

  /** The field list of the whole argument list. */
  function Fields(args: seq<string>): Option<string> {
    FlagValue(args, "-f", |args|)
  }

  /** The `for` loop over the arguments of builtin_cut. */
  method ScanOptions(args: seq<string>) returns (delimiter: char, fields: Option<string>)
    ensures delimiter == Delimiter(args) && fields == Fields(args)
  {
    delimiter := '\t';
    fields := None;
    var i: nat := 1;
    while i < |args|
      invariant 1 <= i && (i == 1 || i <= |args|)
      invariant delimiter == DelimiterAfter(args, i) && fields == FlagValue(args, "-f", i)
    {
      if args[i] == "-d" && i + 1 < |args| {
        delimiter := FirstChar(args[i + 1]);
      }
      if args[i] == "-f" && i + 1 < |args| {
        fields := Some(args[i + 1]);
      }
      i := i + 1;
    }
    assert LastFlag(args, "-d", i) == LastFlag(args, "-d", |args|);
    assert LastFlag(args, "-f", i) == LastFlag(args, "-f", |args|);
  }

  /** A flag in position i with an argument after it and no usable repeat later decides the value. */
  lemma {:induction false} LastOccurrenceWins(args: seq<string>, flag: string, i: nat, n: nat)
    requires 1 <= i && i + 1 < |args| && args[i] == flag
    requires i < n <= |args|
    requires forall j :: i < j < n && j + 1 < |args| ==> args[j] != flag
    ensures FlagValue(args, flag, n) == Some(args[i + 1])
    decreases n
  {
    if n - 1 != i {
      LastOccurrenceWins(args, flag, i, n - 1);
    }
  }

  /** The value is absent exactly when no usable flag appears. */
  lemma FlagAbsent(args: seq<string>, flag: string)
    ensures FlagValue(args, flag, |args|).None?
        <==> forall j :: 1 <= j && j + 1 < |args| ==> args[j] != flag
  {
    var r := LastFlag(args, flag, |args|);
    if r.Some? {
      assert args[r.value] == flag;
    }
  }

  // ---- atoi -------------------------------------------------------------------

  /** The characters isspace accepts in the C locale. */
  const Space: set<char> := {' ', '\t', '\n', '\U{000B}', '\U{000C}', '\r'}

  const Digits: set<char> := {'0', '1', '2', '3', '4', '5', '6', '7', '8', '9'}

  function DigitValue(c: char): nat
    requires c in Digits
  {
    c as int - '0' as int
  }

  /** The number a string of decimal digits denotes. */
  function Value(d: string): nat
    requires forall i :: 0 <= i < |d| ==> d[i] in Digits
  {
    if d == [] then 0 else 10 * Value(d[..|d| - 1]) + DigitValue(d[|d| - 1])
  }

  /**
   * atoi: leading white space, an optional sign, then the longest run of digits;
   * 0 when there is none.
   */
  function Atoi(s: string): int {
    var k := SkipDelims(s, 0, Space);
    if k < |s| && (s[k] == '-' || s[k] == '+') then
      var e := SkipDelims(s, k + 1, Digits);
      if s[k] == '-' then -(Value(s[k + 1..e]) as int) else Value(s[k + 1..e])
    else
      var e := SkipDelims(s, k, Digits);
      Value(s[k..e])
  }

  function DigitChar(n: nat): (c: char)
    requires n < 10
    ensures c in Digits && DigitValue(c) == n
  {
    ('0' as int + n) as char
  }

  /** The usual decimal spelling of a natural number. */
  function Decimal(n: nat): (d: string)
    ensures d != [] && forall i :: 0 <= i < |d| ==> d[i] in Digits
  {
    if n < 10 then [DigitChar(n)] else Decimal(n / 10) + [DigitChar(n % 10)]
  }

  lemma {:induction false} ValueDecimal(n: nat)
    ensures Value(Decimal(n)) == n
  {
    if n >= 10 {
      var d := Decimal(n);
      ValueDecimal(n / 10);
      assert d[..|d| - 1] == Decimal(n / 10);
    }
  }

  /** SkipDelims runs to the end of a string made only of delimiters. */
  lemma SkipAll(s: string, k: nat, delims: set<char>)
    requires k <= |s| && forall i :: k <= i < |s| ==> s[i] in delims
    ensures SkipDelims(s, k, delims) == |s|
    decreases |s| - k
  {
    if k < |s| {
      SkipAll(s, k + 1, delims);
    }
  }

  /**
   * atoi reads back a decimal number: the digits of `n`, followed by anything that does
   * not start with a digit, convert to `n`.
   */
  lemma AtoiDecimal(n: nat, rest: string)
    requires rest == [] || rest[0] !in Digits
    ensures Atoi(Decimal(n) + rest) == n
  {
    var d := Decimal(n);
    var s := d + rest;
    assert s[0] == d[0];
    assert SkipDelims(s, 0, Space) == 0;
    SkipAll(d, 0, Digits);
    var e := SkipDelims(s, 0, Digits);
    assert e == |d| by {
      assert forall i :: 0 <= i < |d| ==> s[i] == d[i];
      if rest != [] {
        assert s[|d|] == rest[0];
      }
    }
    assert s[0..e] == d;
    ValueDecimal(n);
  }

  /** atoi reads back a negative decimal number with its minus sign. */
  lemma AtoiNegative(n: nat)
    ensures Atoi("-" + Decimal(n)) == -(n as int)
  {
    var d := Decimal(n);
    var s := "-" + d;
    assert SkipDelims(s, 0, Space) == 0;
    SkipAll(s, 1, Digits);
    assert s[1..|s|] == d;
    ValueDecimal(n);
  }

  // ---- the field list ------------------------------------------------------------

  /** The field numbers of a list: atoi of each non-empty piece between commas. */
  function FieldList(fields: string): seq<int> {
    var ts := Tokens(fields, {','});
    seq(|ts|, i requires 0 <= i < |ts| => Atoi(ts[i]))
  }

  /** A list of numbers written in decimal, separated by commas. */
  function Join(ns: seq<nat>): string {
    if ns == [] then []
    else if |ns| == 1 then Decimal(ns[0])
    else Decimal(ns[0]) + "," + Join(ns[1..])
  }

  /** The field list splits at a comma into the field lists of the two sides. */
  lemma FieldListComma(a: string, b: string)
    ensures FieldList(a + "," + b) == FieldList(a) + FieldList(b)
  {
    TokensAppend(a, "," + b, {','});
    assert a + "," + b == a + ("," + b);
    assert ("," + b)[1..] == b;
    assert Tokens("," + b, {','}) == Tokens(b, {','});
  }

  /** Empty pieces between commas give no field number: `,,` reads as `,`. */
  lemma EmptyPieces(a: string, b: string)
    ensures FieldList(a + ",," + b) == FieldList(a + "," + b)
  {
    assert a + ",," + b == a + "," + ("," + b);
    FieldListComma(a, "," + b);
    FieldListComma("", b);
    assert "" + "," + b == "," + b;
    FieldListComma(a, b);
  }

  /** The field list of a single number written in decimal is that number. */
  lemma FieldListDecimal(n: nat)
    ensures FieldList(Decimal(n)) == [n]
  {
    var d := Decimal(n);
    assert forall i :: 0 <= i < |d| ==> d[i] !in {','};
    TokensHead(d, {','});
    assert Span(d, {','}) == |d|;
    assert d[..|d|] == d && d[|d|..] == [];
    AtoiDecimal(n, []);
    assert d + [] == d;
  }

  /** Writing numbers as a comma-separated list and reading it back gives the numbers. */
  lemma {:induction false} FieldListJoin(ns: seq<nat>)
    ensures FieldList(Join(ns)) == ns
  {
    if ns == [] {
      assert Tokens([], {','}) == [];
    } else if |ns| == 1 {
      FieldListDecimal(ns[0]);
    } else {
      FieldListComma(Decimal(ns[0]), Join(ns[1..]));
      FieldListDecimal(ns[0]);
      FieldListJoin(ns[1..]);
      assert ns == [ns[0]] + ns[1..];
    }
  }

  /** Two sequences that agree below `k` and at `k` agree below `k + 1`. */
  lemma PrefixStep(x: seq<int>, y: seq<int>, k: nat)
    requires k < |x| && k < |y| && x[..k] == y[..k] && x[k] == y[k]
    ensures x[..k + 1] == y[..k + 1]
  {
    assert x[..k + 1] == x[..k] + [x[k]];
    assert y[..k + 1] == y[..k] + [y[k]];
  }

  /** The strtok loop that fills `selected` from the field list. */
  method ParseFieldList(fields: string, selected: array<int>) returns (count: nat)
    requires selected.Length == MAX_FIELDS && |Tokens(fields, {','})| <= MAX_FIELDS
    modifies selected
    ensures count <= selected.Length && selected[..count] == FieldList(fields)
    ensures selected[count..] == old(selected[count..])
  {
    ghost var ts := Tokens(fields, {','});
    ghost var sel := FieldList(fields);
    count := 0;
    var r := Strtok(fields, 0, {','});
    var token, pos := r.0, r.1;
    StrtokTokens(fields, 0, {','});
    assert fields[0..] == fields;
    while token.Some?
      invariant pos <= |fields| && count <= |ts| && (token.None? ==> pos == |fields|)
      invariant Pending(fields, token, pos, {','}) == ts[count..]
      invariant selected[..count] == sel[..count]
      invariant forall i :: count <= i < selected.Length ==> selected[i] == old(selected[i])
      decreases |fields| - pos, if token.Some? then 1 else 0
    {
      StrtokTokens(fields, pos, {','});
      assert ts[count..][0] == token.value && ts[count..][1..] == ts[count + 1..];
      selected[count] := Atoi(token.value);
      PrefixStep(selected[..], sel, count);
      count := count + 1;
      r := Strtok(fields, pos, {','});
      token, pos := r.0, r.1;
    }
    assert ts[count..] == Tokens(fields[|fields|..], {','}) == [];
  }

  // ---- one line ---------------------------------------------------------------------

  /** How often `n` occurs in the field numbers. */
  function Occurrences(sel: seq<int>, n: int): nat {
    if sel == [] then 0 else Occurrences(sel[..|sel| - 1], n) + (if sel[|sel| - 1] == n then 1 else 0)
  }

  /** `s` written `k` times in a row. */
  function Repeat(s: string, k: nat): string {
    if k == 0 then [] else Repeat(s, k - 1) + s
  }

  /**
   * What cut prints for the fields `fs` when the first of them has number `no`: each
   * field in field order, once per occurrence of its number in the list.
   */
  function Emit(fs: seq<string>, no: int, sel: seq<int>): string {
    if fs == [] then [] else Repeat(fs[0], Occurrences(sel, no)) + Emit(fs[1..], no + 1, sel)
  }

  /** The delimiter string "d\0" as strtok sees it: NUL makes it the empty string. */
  function DelimSet(d: char): set<char> {
    if d == '\0' then {} else {d}
  }

  /**
   * The output for one line read by fgets: its fields (runs of the delimiter produce
   * none, and the newline fgets keeps stays in the last field), then a newline.
   */
  function CutLineSpec(line: string, d: char, sel: seq<int>): string {
    Emit(Tokens(line, DelimSet(d)), 1, sel) + "\n"
  }

  /** Emitting one field, then the rest, with the output gathered so far in front. */
  lemma EmitStep(t: string, rest: seq<string>, no: int, sel: seq<int>)
    ensures Emit([t] + rest, no, sel) == Repeat(t, Occurrences(sel, no)) + Emit(rest, no + 1, sel)
  {
    assert ([t] + rest)[1..] == rest;
  }

  /** The output still due splits into that of the current field and that of the fields strtok has yet to return. */
  lemma PendingStep(line: string, t: string, pos: nat, delims: set<char>, no: int, sel: seq<int>)
    requires pos <= |line|
    ensures Emit(Pending(line, Some(t), pos, delims), no, sel)
      == Repeat(t, Occurrences(sel, no)) + Emit(Pending(line, Strtok(line, pos, delims).0, Strtok(line, pos, delims).1, delims), no + 1, sel)
  {
    StrtokTokens(line, pos, delims);
    EmitStep(t, Tokens(line[pos..], delims), no, sel);
  }

  /** The inner `for` loop of builtin_cut: the field printed once per list entry equal to its number. */
  method FieldOutput(t: string, fieldNo: int, selected: array<int>, count: nat) returns (out: string)
    requires count <= selected.Length
    ensures out == Repeat(t, Occurrences(selected[..count], fieldNo))
  {
    out := [];
    var i := 0;
    while i < count
      invariant i <= count
      invariant out == Repeat(t, Occurrences(selected[..i], fieldNo))
    {
      assert selected[..i + 1][..i] == selected[..i];
      if selected[i] == fieldNo {
        out := out + t;
      }
      i := i + 1;
    }
  }

  /** The body of the fgets loop of builtin_cut on one line. */
  method CutLine(line: string, delimiter: char, selected: array<int>, count: nat) returns (out: string)
    requires count <= selected.Length
    ensures out == CutLineSpec(line, delimiter, selected[..count])
  {
    var delims := DelimSet(delimiter);
    ghost var sel := selected[..count];
    ghost var all := Emit(Tokens(line, delims), 1, sel);
    var fieldNo := 1;
    var r := Strtok(line, 0, delims);
    var token, pos := r.0, r.1;
    StrtokTokens(line, 0, delims);
    assert line[0..] == line;
    out := [];
    while token.Some?
      invariant pos <= |line| && (token.None? ==> pos == |line|)
      invariant all == out + Emit(Pending(line, token, pos, delims), fieldNo, sel)
      decreases |line| - pos, if token.Some? then 1 else 0
    {
      var t := token.value;
      var piece := FieldOutput(t, fieldNo, selected, count);
      PendingStep(line, t, pos, delims, fieldNo, sel);
      out := out + piece;
      r := Strtok(line, pos, delims);
      token, pos := r.0, r.1;
      fieldNo := fieldNo + 1;
    }
    assert Tokens(line[pos..], delims) == [];
    out := out + "\n";
  }

  // ---- the whole builtin ---------------------------------------------------------------

  /** The output for the lines fgets returns, each processed on its own. */
  function CutLines(lines: seq<string>, d: char, sel: seq<int>): string {
    if lines == [] then [] else CutLines(lines[..|lines| - 1], d, sel) + CutLineSpec(lines[|lines| - 1], d, sel)
  }

  /** What builtin_cut prints for its arguments and input lines. */
  function CutSpec(args: seq<string>, input: seq<string>): string {
    var f := Fields(args);
    if f.None? then MissingFields else CutLines(input, Delimiter(args), FieldList(f.value))
  }

  /** `selected` has room for the list: atoi results are stored with no bounds check. */
  predicate FieldsFit(args: seq<string>) {
    Fields(args).Some? ==> |Tokens(Fields(args).value, {','})| <= MAX_FIELDS
  }

  /** builtin_cut over the lines of its input (what fgets returns, one string per call). */
  method Cut(args: seq<string>, input: seq<string>) returns (out: string)
    requires FieldsFit(args)
    ensures out == CutSpec(args, input)
    ensures Fields(args).None? ==> out == MissingFields
  {
    var delimiter, fields := ScanOptions(args);
    if fields.None? {
      return MissingFields;
    }
    var selected := new int[MAX_FIELDS];
    var count := ParseFieldList(fields.value, selected);
    out := [];
    var k := 0;
    while k < |input|
      invariant k <= |input|
      invariant selected[..count] == FieldList(fields.value)
      invariant out == CutLines(input[..k], delimiter, selected[..count])
    {
      var lineOut := CutLine(input[k], delimiter, selected, count);
      assert input[..k + 1][..k] == input[..k] && input[..k + 1][k] == input[k];
      out := out + lineOut;
      k := k + 1;
    }
    assert input[..k] == input;
  }

  // ---- what the output of a line is ---------------------------------------------------

  /** The count of a number is its multiplicity in the list, so the list's order does not matter. */
  lemma {:induction false} OccurrencesMultiset(sel: seq<int>, n: int)
    ensures Occurrences(sel, n) == multiset(sel)[n]
  {
    if sel != [] {
      var init := sel[..|sel| - 1];
      assert sel == init + [sel[|sel| - 1]];
      OccurrencesMultiset(init, n);
    }
  }

  /** Lists that agree on how often each field number occurs give the same output. */
  lemma {:induction false} EmitAgree(fs: seq<string>, no: int, s1: seq<int>, s2: seq<int>)
    requires forall m :: no <= m < no + |fs| ==> multiset(s1)[m] == multiset(s2)[m]
    ensures Emit(fs, no, s1) == Emit(fs, no, s2)
    decreases |fs|
  {
    if fs != [] {
      OccurrencesMultiset(s1, no);
      OccurrencesMultiset(s2, no);
      EmitAgree(fs[1..], no + 1, s1, s2);
    }
  }

  /** Reordering the field list, repeats included, does not change what a line prints. */
  lemma CutLineOrderFree(line: string, d: char, s1: seq<int>, s2: seq<int>)
    requires multiset(s1) == multiset(s2)
    ensures CutLineSpec(line, d, s1) == CutLineSpec(line, d, s2)
  {
    EmitAgree(Tokens(line, DelimSet(d)), 1, s1, s2);
  }

  /** Field numbers that name no field of the line contribute nothing. */
  lemma {:induction false} EmitOutOfRange(fs: seq<string>, no: int, sel: seq<int>)
    requires forall i :: 0 <= i < |sel| ==> sel[i] < no || no + |fs| <= sel[i]
    ensures Emit(fs, no, sel) == []
    decreases |fs|
  {
    if fs != [] {
      OccurrencesMultiset(sel, no);
      assert no !in sel;
      EmitOutOfRange(fs[1..], no + 1, sel);
    }
  }

  /** The fields that a list of in-range numbers names, in list order. */
  function Gather(fs: seq<string>, no: int, sel: seq<int>): string
    requires forall i :: 0 <= i < |sel| ==> no <= sel[i] < no + |fs|
  {
    if sel == [] then [] else fs[sel[0] - no] + Gather(fs, no, sel[1..])
  }

  /** Dropping the first field and renumbering from the next number names the same fields. */
  lemma {:induction false} GatherShift(fs: seq<string>, no: int, sel: seq<int>)
    requires fs != [] && forall i :: 0 <= i < |sel| ==> no + 1 <= sel[i] < no + |fs|
    ensures Gather(fs[1..], no + 1, sel) == Gather(fs, no, sel)
    decreases |sel|
  {
    if sel != [] {
      GatherShift(fs, no, sel[1..]);
    }
  }

  /**
   * For a strictly increasing list of in-range numbers, the output is the named fields
   * concatenated in list order.
   */
  lemma {:induction false} EmitIncreasing(fs: seq<string>, no: int, sel: seq<int>)
    requires forall i, j :: 0 <= i < j < |sel| ==> sel[i] < sel[j]
    requires forall i :: 0 <= i < |sel| ==> no <= sel[i] < no + |fs|
    ensures Emit(fs, no, sel) == Gather(fs, no, sel)
    decreases |fs|
  {
    if fs == [] {
      assert sel == [];
    } else if sel == [] {
      EmitOutOfRange(fs, no, sel);
    } else if sel[0] == no {
      var tail := sel[1..];
      EmitHit(fs, no, sel);
      EmitIncreasing(fs[1..], no + 1, tail);
      GatherShift(fs, no, tail);
    } else {
      EmitMiss(fs, no, sel);
      EmitIncreasing(fs[1..], no + 1, sel);
      GatherShift(fs, no, sel);
    }
  }

  /** The first field is named by the head of an increasing list, and by nothing after it. */
  lemma EmitHit(fs: seq<string>, no: int, sel: seq<int>)
    requires fs != [] && sel != [] && sel[0] == no
    requires forall i, j :: 0 <= i < j < |sel| ==> sel[i] < sel[j]
    ensures Emit(fs, no, sel) == fs[0] + Emit(fs[1..], no + 1, sel[1..])
  {
    var tail := sel[1..];
    assert sel == [sel[0]] + tail;
    assert no !in tail by {
      forall i | 0 <= i < |tail|
        ensures tail[i] != no
      {
        assert tail[i] == sel[i + 1];
      }
    }
    OccurrencesMultiset(sel, no);
    assert Repeat(fs[0], 1) == fs[0];
    assert forall m :: no + 1 <= m < no + |fs| ==> multiset(sel)[m] == multiset(tail)[m];
    EmitAgree(fs[1..], no + 1, sel, tail);
  }

  /** A first field whose number is not in the list prints nothing. */
  lemma EmitMiss(fs: seq<string>, no: int, sel: seq<int>)
    requires fs != [] && sel != [] && sel[0] != no
    requires forall i, j :: 0 <= i < j < |sel| ==> sel[i] < sel[j]
    requires forall i :: 0 <= i < |sel| ==> no <= sel[i]
    ensures Emit(fs, no, sel) == Emit(fs[1..], no + 1, sel)
  {
    assert no !in sel by {
      forall i | 0 <= i < |sel|
        ensures sel[i] != no
      {
        if i > 0 {
          assert sel[0] < sel[i];
        }
      }
    }
    OccurrencesMultiset(sel, no);
  }

  /**
   * `-f` with strictly increasing field numbers that exist on the line prints those
   * fields, numbered from 1, one after the other, then a newline.
   */
  lemma CutLineSelect(line: string, d: char, sel: seq<int>)
    requires forall i, j :: 0 <= i < j < |sel| ==> sel[i] < sel[j]
    requires forall i :: 0 <= i < |sel| ==> 1 <= sel[i] <= |Tokens(line, DelimSet(d))|
    ensures CutLineSpec(line, d, sel) == Gather(Tokens(line, DelimSet(d)), 1, sel) + "\n"
  {
    EmitIncreasing(Tokens(line, DelimSet(d)), 1, sel);
  }

  /** Lines are cut one at a time: the output for two runs of lines is the two outputs in turn. */
  lemma {:induction false} CutLinesAppend(a: seq<string>, b: seq<string>, d: char, sel: seq<int>)
    ensures CutLines(a + b, d, sel) == CutLines(a, d, sel) + CutLines(b, d, sel)
    decreases |b|
  {
    if b == [] {
      assert a + b == a;
    } else {
      var init := b[..|b| - 1];
      assert (a + b)[..|a + b| - 1] == a + init;
      CutLinesAppend(a, init, d, sel);
    }
  }

  /**
   * fgets keeps the newline, so it stays in the last field: selecting that field prints it
   * and then the newline cut adds, an empty line more than for any other field.
   */
  lemma LastFieldKeepsNewline()
    ensures CutLineSpec("a\tb\n", '\t', [2]) == "b\n\n"
    ensures CutLineSpec("a\tb\n", '\t', [1]) == "a\n"
  {
    ExampleFields();
    assert DelimSet('\t') == {'\t'};
    var fs := ["a", "b\n"];
    assert fs[1..] == ["b\n"] && fs[1..][1..] == [];
    assert Occurrences([2], 1) == 0 && Occurrences([2], 2) == 1;
    assert Occurrences([1], 1) == 1 && Occurrences([1], 2) == 0;
    assert Repeat("b\n", 1) == "b\n" && Repeat("a", 1) == "a";
  }

  /**
   * The newline fgets keeps: unless it is the delimiter, it ends the last field of a line
   * whose text ends inside a field, and is a field of its own after a delimiter or on an
   * empty line.
   */
  lemma NewlineInLastField(x: string, d: char)
    requires d != '\n'
    ensures x != [] && x[|x| - 1] !in DelimSet(d) ==>
      var fs := Tokens(x, DelimSet(d));
      fs != [] && Tokens(x + "\n", DelimSet(d)) == fs[..|fs| - 1] + [fs[|fs| - 1] + "\n"]
    ensures x == [] || x[|x| - 1] in DelimSet(d) ==> Tokens(x + "\n", DelimSet(d)) == Tokens(x, DelimSet(d)) + ["\n"]
  {
    TokensTrailing(x, '\n', DelimSet(d));
  }

  /** The line "a<TAB>b<NEWLINE>" splits at the tab into "a" and "b<NEWLINE>". */
  lemma ExampleFields()
    ensures Tokens("a\tb\n", {'\t'}) == ["a", "b\n"]
  {
    var line := "a\tb\n";
    var tab := {'\t'};
    assert Span(line, tab) == 1;
    assert line[..1] == "a" && line[1..] == "\tb\n";
    var s1 := "\tb\n";
    assert s1[1..] == "b\n";
    assert Tokens(s1, tab) == Tokens("b\n", tab);
    var s2 := "b\n";
    assert Span(s2, tab) == 2 by {
      assert s2[1..] == "\n" && "\n"[1..] == "";
    }
    assert s2[..2] == s2 && s2[2..] == [];
    assert Tokens(s2, tab) == [s2];
    assert Tokens(line, tab) == ["a"] + Tokens(s1, tab);
  }

  /**
   * Fields 1 and 3 of "a<TAB>b<TAB>c<NEWLINE>" print "ac", then the newline that stays in
   * field 3, then the newline cut adds.
   */
  lemma FirstAndThird()
    ensures CutLineSpec("a\tb\tc\n", '\t', [1, 3]) == "ac\n\n"
  {
    assert DelimSet('\t') == {'\t'};
    ThreeFields();
    FirstAndThirdEmit();
  }

  /** What cut prints for the fields "a", "b", "c<NEWLINE>" and the list 1,3, before its newline. */
  lemma FirstAndThirdEmit()
    ensures Emit(["a", "b", "c\n"], 1, [1, 3]) == "ac\n"
  {
    var sel := [1, 3];
    FirstAndThirdCounts();
    var fs := ["a", "b", "c\n"];
    assert fs[1..] == ["b", "c\n"] && fs[1..][1..] == ["c\n"] && fs[1..][1..][1..] == [];
    assert Repeat("a", 1) == "a" && Repeat("b", 0) == [] && Repeat("c\n", 1) == "c\n";
    assert Emit(["c\n"], 3, sel) == "c\n";
    assert Emit(["b", "c\n"], 2, sel) == "c\n";
  }

  lemma FirstAndThirdCounts()
    ensures Occurrences([1, 3], 1) == 1 && Occurrences([1, 3], 2) == 0 && Occurrences([1, 3], 3) == 1
  {
    assert [1, 3][..1] == [1] && [1][..0] == [];
  }

  /** The line "a<TAB>b<TAB>c<NEWLINE>" has the fields "a", "b" and "c<NEWLINE>". */
  lemma ThreeFields()
    ensures Tokens("a\tb\tc\n", {'\t'}) == ["a", "b", "c\n"]
  {
    var tab := {'\t'};
    var line := "a\tb\tc\n";
    SpanUnique(line, tab, 1);
    TokensHead(line, tab);
    assert line[..1] == "a" && line[1..] == "\tb\tc\n";
    assert "\tb\tc\n"[1..] == "b\tc\n";
    var s2 := "b\tc\n";
    SpanUnique(s2, tab, 1);
    TokensHead(s2, tab);
    assert s2[..1] == "b" && s2[1..] == "\tc\n";
    assert "\tc\n"[1..] == "c\n";
    var s3 := "c\n";
    SpanUnique(s3, tab, 2);
    TokensHead(s3, tab);
    assert s3[..2] == s3 && s3[2..] == [];
  }
}

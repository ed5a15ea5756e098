# shellish: the command parser and the `cut` builtin

This project models two parts of the `shellish` shell (`shellish-skeleton.c`) and proves properties about them.

- **The command-line parser.** `init_command` resets a `command_t` record. `parse_command` reads a line with `strtok` on
  space, tab and newline. It fills the record token by token:
  - `&` sets the background flag;
  - `<`, `>` and `>>` store the next token in their redirect slot;
  - any other token is appended to the arguments, and the first such token becomes the name;
  - `|` allocates a successor record, which parses the rest of the line up to the next newline.
- **The `cut` builtin.**
  - A loop over the arguments picks the delimiter (`-d`, tab by default) and the field list (`-f`).
  - The field list is split on `,`, and each piece is converted with `atoi` into `selected`.
  - Each input line is split on the delimiter. Every field, numbered from 1, is printed once for each time its number
    occurs in the list, and a newline follows each line.

The model follows the C code.

- `wrappers.dfy`: `Option`, which stands for a pointer that may be NULL.
- `tokenizer.dfy`: `strtok`, with its hidden cursor made an explicit index. `Tokens` is the sequence of maximal runs
  without a delimiter, and a `strtok` loop visits exactly those runs (`StrtokTokens`).
- `stages.dfy`: the stage record as a value (`Stage`) and the grammar on tokens (`Build`). `Roles` classifies each token:
  a token that follows a redirect operator is its target, whatever its text. The closed forms describe the result of
  `Build`: `Absorb` for a stage without `|`, `LastOp` and `RedirectAfter` for the redirect slots, and `Words` for the
  arguments.
- `parser.dfy`:
  - `Continue` and `ParseLine` follow the C loop one strtok call at a time, with the `strtok` cursor, the extra `strtok`
    call after an operator, and `strtok(NULL, "\n")` after `|`.
  - The class `Command` is `struct command_t`. It has a fixed array of `MAX_ARGS` argument slots, its own fields and a
    `next` link. Its methods `Init` and `Parse` are proved against `ParseLine`.
  - `ParseLineTokens` connects `ParseLine` to `Build` on the strtok tokens of a line, so the grammar lemmas hold of what
    `Parse` builds.
- `cut.dfy`: the option scan (`ScanOptions`), the field-list loop (`ParseFieldList` into an `array<int>` of 100 entries),
  the per-line loops (`CutLine`, `FieldOutput`) and the builtin as a whole (`Cut`). Each is proved against a function
  (`Delimiter`, `Fields`, `FieldList`, `CutLineSpec`, `CutSpec`), and lemmas about those functions state what the output
  is.

## Model

| member | source | states |
|---|---|---|
| Tokenizer.Strtok | shellish-skeleton.c:48 | One strtok call: NULL only when nothing but delimiters remains, and then the cursor is at the end. Otherwise the token is non-empty and free of delimiters, and the cursor moves past it. |
| Tokenizer.StrtokTokens | shellish-skeleton.c:48-84 | The tokens still ahead of the cursor are the token this call returns, followed by those ahead of the new cursor. So a strtok loop returns exactly the delimiter-free runs, in order. |
| Tokenizer.Tokens | shellish-skeleton.c:48-84 | The tokens a strtok loop sees: the maximal runs without a delimiter, left to right, with runs of delimiters giving no empty token. This is a definition without a contract; StrtokTokens ties strtok to it. |
| Tokenizer.TokensTrailing | shellish-skeleton.c:129-132 | A character that is not a delimiter, put at the end of a string, extends the string's last token when the string ends inside a token. Otherwise it becomes a token of its own. |
| Tokenizer.TokensWellFormed | shellish-skeleton.c:48 | No token is empty and no token holds a separator: a run of separators never yields an empty token. |
| Tokenizer.TokensAppend | shellish-skeleton.c:73 | Splitting a string just before a delimiter splits its tokens the same way. |
| Stages.Build | shellish-skeleton.c:45-88 | The grammar parse_command applies to the tokens it still has to read. `&` sets background; a redirect operator takes the next token, whatever it is, or None at the end; `\|` closes the stage and starts an empty one; any other token is appended, the first one also as the name. There is always at least one stage. |
| Stages.Absorb | shellish-skeleton.c:50-85 | The closed form of one stage read from tokens without `\|`. This is a definition without a contract; SingleStage proves that Build agrees with it. |
| Stages.LastOp | shellish-skeleton.c:56-69 | The index it returns holds the requested operator in the operator role. |
| Stages.LastOpIsLast | shellish-skeleton.c:56-69 | No later operator of that kind follows the one found, and there is none exactly when LastOp finds none. This is why a repeated redirect overwrites the earlier one. |
| Stages.SingleStage | shellish-skeleton.c:50-85 | Tokens without `\|` give one stage. Its arguments are the old ones followed by the ordinary tokens in order. Its name is the old name or, failing that, the first ordinary token. `&` anywhere sets background. Each redirect slot holds the token after the last operator for it, None when that operator ends the line, or its old value. |
| Stages.SplitAtPipe | shellish-skeleton.c:71-74 | At the first `\|` that is not a redirect target, the current stage is closed with the tokens before it. The tokens after it go to a fresh, empty successor. |
| Stages.StageCount | shellish-skeleton.c:71-74 | The number of stages is the number of `\|` tokens that are not redirect targets, plus one. |
| Stages.ArgsInOrder | shellish-skeleton.c:77-82 | Taken stage by stage, the arguments of the chain are exactly the ordinary tokens in input order. |
| Stages.WordsOrdinary | shellish-skeleton.c:52-82 | Operators are recognised only as whole tokens. No argument is `&`, `<`, `>`, `>>` or `\|`, and a token such as `a>b` is an ordinary argument. |
| Stages.TrailingPipe | shellish-skeleton.c:71-74 | A `\|` at the end of the line leaves an empty last stage. |
| Parser.Continue | shellish-skeleton.c:50-85 | The stages the while loop of parse_command still produces, given the token strtok just returned, its cursor and the record being filled. It makes the extra strtok call after an operator and one call at the bottom of the loop. At `\|` it returns the record followed by the parse of the rest of the line. There is always at least one stage. |
| Parser.ParseLine | shellish-skeleton.c:45-49 | parse_command from the record init_command leaves, with the first strtok call on the line. There is always at least one stage. |
| Parser.RestAfterPipe | shellish-skeleton.c:73 | What the successor of a `\|` parses holds no newline and is no longer than the rest of the line. |
| Parser.ContinueHead | shellish-skeleton.c:77-82 | The loop only appends to the arguments of the record it is filling. |
| Parser.RestOfLine | shellish-skeleton.c:73 | Within one line, `strtok(NULL, "\n")` after `\|` hands the successor exactly the tokens still ahead. |
| Parser.ParseLineTokens | shellish-skeleton.c:45-88 | The chain parse_command builds from a line is Build applied to the line's strtok tokens. |
| Parser.WordStep | shellish-skeleton.c:81 | When the whole chain fits its argument vectors, every ordinary token is written below MAX_ARGS. |
| Parser.PipeStep | shellish-skeleton.c:71-74 | At `\|` the chain is the closed record followed by the successor's chain, and the successor's chain also fits. |
| Parser.Command.constructor | shellish-skeleton.c:72 | A new record comes with its own new vector of MAX_ARGS argument slots. Their contents are unknown, as after malloc, and are recorded in the ghost field `Slots`. |
| Parser.Command.Init | shellish-skeleton.c:32-40 | The record becomes empty: no name, no arguments, not in background, three NULL redirects, no successor. The argument slots are left as they were. |
| Parser.Command.Parse | shellish-skeleton.c:45-88 | The record and a newly allocated chain after it hold exactly the stages of ParseLine(line). When this record is the last one, it gets a NULL after its arguments; otherwise its slots from arg_count on are unchanged. No slot past the one after its arguments changes. Every later record satisfies Terminated: the last record of the chain has a NULL after its arguments, and each record closed by `\|` keeps the slots from arg_count on as malloc left them. |
| Parser.Command.Consume | shellish-skeleton.c:52-84 | One pass of the loop for a token other than `|`. `&` sets background, a redirect operator stores the next strtok token (or None) as its target, and any other token becomes an argument through AddArg. The new stage is stated exactly, and so is the strtok result returned: the call after the token, or after the target for an operator. The remaining parse is unchanged. |
| Parser.Command.SetRedirect | shellish-skeleton.c:56-69 | The target, or NULL at the end of the line, overwrites the slot its operator selects. |
| Parser.Command.AddWord | shellish-skeleton.c:77-82 | The token goes into the next argument slot and becomes the name if there was none. arg_count grows by one. |
| Parser.Command.Link | shellish-skeleton.c:71-74 | The record keeps its stage and gets a new successor that holds the parse of the rest of the line. |
| Parser.Command.Parsed | shellish-skeleton.c:72-73 | malloc followed by parse_command: a new, owned chain for the given text, with every record of it, this one included, Terminated. |
| Parser.Command.Attach | shellish-skeleton.c:72 | The successor link: the record keeps its own stage and fields, and its chain becomes its own stage followed by the successor's stages. |
| Parser.Command.Terminate | shellish-skeleton.c:87 | The NULL goes in the slot right after the arguments, and nothing else changes. |
| Cut.LastFlag | shellish-skeleton.c:97-103 | The last position from 1 on that holds the flag with an argument after it. A flag in the last position does not count. |
| Cut.ScanOptions | shellish-skeleton.c:94-103 | The loop over the arguments yields Delimiter(args) (tab by default, else the first character of the last usable `-d`'s argument) and Fields(args). |
| Cut.LastOccurrenceWins | shellish-skeleton.c:97-103 | A usable flag with no usable repeat after it decides the value. |
| Cut.FlagAbsent | shellish-skeleton.c:101-108 | There is no field list exactly when no `-f` has an argument after it. |
| Cut.Atoi | shellish-skeleton.c:117 | atoi: leading white space, an optional sign, then the longest run of digits, 0 when there is none. This is a definition without a contract; AtoiDecimal and AtoiNegative are about it. |
| Cut.AtoiDecimal | shellish-skeleton.c:117 | atoi reads back a decimal number followed by anything that does not start with a digit. |
| Cut.AtoiNegative | shellish-skeleton.c:117 | atoi reads back a negative decimal number. |
| Cut.FieldList | shellish-skeleton.c:113-119 | The field numbers: atoi of each non-empty piece between commas. This is a definition without a contract; ParseFieldList is proved against it, and the three lemmas below are about it. |
| Cut.FieldListJoin | shellish-skeleton.c:113-119 | Natural numbers written in decimal and joined with commas read back as the same numbers, in order. |
| Cut.FieldListComma | shellish-skeleton.c:114-118 | The field list of `a,b` is the field list of `a` followed by that of `b`. |
| Cut.EmptyPieces | shellish-skeleton.c:114-118 | An empty piece between two commas gives no field number: `,,` reads as `,`. |
| Cut.ParseFieldList | shellish-skeleton.c:110-119 | The strtok loop fills the first `count` entries of `selected` with exactly FieldList(fields), and leaves every entry from `count` on as it was. |
| Cut.FieldOutput | shellish-skeleton.c:136-139 | The field is printed once for each entry of the list equal to its number. |
| Cut.Emit | shellish-skeleton.c:134-143 | The output for a line's fields, numbered from the given number: each field in field order, once per occurrence of its number in the list. This is a definition without a contract; the lemmas below are about it. |
| Cut.CutLineSpec | shellish-skeleton.c:131-145 | The output for one line read by fgets: Emit over the line's fields, numbered from 1, then a newline. This is a definition without a contract; CutLine is proved against it. |
| Cut.CutLine | shellish-skeleton.c:131-145 | Output for one line: each field in field order, once per occurrence of its number, then a newline. |
| Cut.CutLines | shellish-skeleton.c:129-146 | The output for the lines fgets returns: the output of each line in turn. This is a definition without a contract. |
| Cut.CutSpec | shellish-skeleton.c:92-147 | What the builtin prints: the missing `-f` message, or CutLines with the delimiter and the field list the arguments select. This is a definition without a contract; Cut is proved against it. |
| Cut.Cut | shellish-skeleton.c:92-147 | The output of the whole builtin is CutSpec(args, input). Without `-f` it is exactly the message `cut: missing -f option` and a newline. |
| Cut.OccurrencesMultiset | shellish-skeleton.c:136-139 | How often a field is printed is the multiplicity of its number in the list. |
| Cut.EmitAgree | shellish-skeleton.c:134-143 | Two lists that give the line's field numbers the same multiplicities produce the same output. |
| Cut.CutLineOrderFree | shellish-skeleton.c:136-139 | Reordering the field list, repeats included, does not change what a line prints. |
| Cut.EmitOutOfRange | shellish-skeleton.c:134-143 | Numbers that name no field of the line print nothing. |
| Cut.EmitIncreasing | shellish-skeleton.c:134-143 | For a strictly increasing list of in-range numbers, the output is the named fields in list order. |
| Cut.CutLineSelect | shellish-skeleton.c:129-145 | With strictly increasing field numbers that exist on the line, the output is those fields, numbered from 1, concatenated and followed by a newline. |
| Cut.CutLinesAppend | shellish-skeleton.c:129-146 | Lines are processed independently: the output for two runs of lines is the two outputs one after the other. |
| Cut.ExampleFields | shellish-skeleton.c:132 | The line `a<TAB>b<NEWLINE>` has the two fields `a` and `b<NEWLINE>`: the newline kept by fgets stays in the last field. |
| Cut.NewlineInLastField | shellish-skeleton.c:129-132 | For every line text and delimiter other than newline: the newline fgets keeps is appended to the last field when the text ends inside a field. It is a field of its own when the text is empty or ends in the delimiter. |
| Cut.FirstAndThird | shellish-skeleton.c:129-145 | Fields 1,3 of `a<TAB>b<TAB>c<NEWLINE>` print `ac`, the newline kept in field 3, and the newline cut adds. |
| Cut.ThreeFields | shellish-skeleton.c:132 | The line `a<TAB>b<TAB>c<NEWLINE>` has the fields `a`, `b` and `c<NEWLINE>`. |
| Cut.LastFieldKeepsNewline | shellish-skeleton.c:129-145 | Selecting the last field of `a<TAB>b<NEWLINE>` prints `b` and two newlines, while selecting the first prints `a` and one newline. |

Notes on the code:
- For `-f 1,3` and the input line `a<TAB>b<TAB>c<NEWLINE>`, the code prints `ac`, then a newline, then one more newline (`FirstAndThird`). Field 3 is `c<NEWLINE>`, because fgets keeps the newline, and the output of every line ends with the newline printed at line 145.
- A caller that builds the record itself can pass an empty `-d` argument; a record filled by parse_command never holds an empty token (`TokensWellFormed`). The first character is then NUL, and strtok sees an empty delimiter set, so the whole line is a single field. `DelimSet` models this.
- parse_command writes the argument slots with no bounds check. `Parse` therefore requires `FitsArgs`:
  - a stage closed by `|` may hold up to MAX_ARGS arguments, because the function returns before the NULL write at line 87;
  - the last stage must hold fewer than MAX_ARGS.
- builtin_cut likewise requires that the field list has at most 100 pieces (`FieldsFit`).

## Left out

- builtin_sysinfo and builtin_chatroom: these are environment lookups, `system` calls, FIFOs, `fork` and directory reads. They are foreign calls, I/O and inter-process concurrency, with no sequential logic to state.
- The process orchestration (fork, pipe, exec, wait, opening the redirect files) is not part of this model.
- The `fgets` and `printf` plumbing of cut. Input is a sequence of lines exactly as fgets returns them, and output is a returned string. How MAX_LINE splits a long line into several fgets results is not modelled.
- Parser.Command.Parse: redirect targets, names and arguments are copies of the token strings. In C they are pointers into the line buffer, and strtok overwrites that buffer with NUL bytes; this aliasing is not modelled.
- Parser.Command.Parse: the successor records for `|` are modelled as newly allocated objects owned by the chain (`Repr`). A failed malloc and the chain that is never freed are not modelled.
- Parser.ParseLineTokens: it requires `OneLine(line)`, meaning that only separators follow a newline, which is the shape of a line read by fgets. After `|`, the C code hands the successor only the text up to the next newline, so on text with several lines the loop and the token grammar differ. `Continue` and `ParseLine` model that case as the code does.
- Cut.AtoiDecimal: `int` overflow in atoi is not modelled. Field numbers are unbounded integers.
- Cut.Delimiter: the characters of a string stand for C's bytes. `-d` takes the first byte of its argument (line 99), and strtok splits on that byte. For a non-ASCII `-d` argument, such as a UTF-8 `é`, C takes the first byte of its encoding and also cuts through other characters that contain that byte; the model takes the whole character instead, so multi-byte text is not modelled.
- Strings hold no NUL byte. A NUL inside a line read by fgets would end the C string early.
- builtin_cut's `strdup` and `free` of the field list are not modelled, because the copy only protects `fields` from strtok.

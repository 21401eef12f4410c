# vaCreator command line, modelled in Dafny

vaCreator is a small Spring Boot command-line tool. It creates video-analytics configurations on
a local server, one POST request per camera stream. It is invoked as

    <token> FROM <start> [TO] <end> <type>
    <token> FOR [<id>, <id>, ...] <type>

where `<type>` is `od` (object in zone) or `sva` (smart VA) in any case. `run` checks the
command line:

- it takes the last token as the analytics type;
- it hands the tokens before it to `parseRangeArgs` or `parseForArgs`, according to the keyword;
- it stops with a message when any check fails.

Otherwise `run` calls `createAnalytics` once per stream id, in order. `run` wraps each call in
a catch of `IOException` and `InterruptedException`, reports that failure and goes on with the
next id. Any other exception is not caught and ends the run. `createAnalytics` counts a response
as created exactly when its status is in 200..299.

The model has these modules:

- **`Wrappers`**: `Option` (for `NumberFormatException`) and `Result` (for
  `IllegalArgumentException` and its message).
- **`JavaStrings`**: the `java.lang.String` behaviour the parsers depend on.
  - `trim()` strips characters up to U+0020.
  - The regex class `\s` is `[ \t\n\x0B\f\r]`. It is a separate predicate from the `trim()` one.
  - `toUpperCase()` and `equalsIgnoreCase()`, on ASCII letters. `toUpperCase()` follows the
    JVM's default locale; the model assumes one whose upper-casing of ASCII is the plain
    `a`-`z` to `A`-`Z` (not Turkish or Azeri).
  - `split(",")`, including its removal of trailing empty strings and its `[s]` answer when
    there is no comma.
- **`JavaIntegers`**: the 32-bit `int` range.
  - `Integer.parseInt`: an optional sign, then at least one ASCII digit, with a value in
    -2^31..2^31-1.
  - The decimal text that string concatenation writes for an `int`.
  - Two's-complement wrap-around.
- **`Grammar`**: the argument checks of `run`, `parseRangeArgs` and `parseForArgs`, as
  functions. It also holds the lemmas about them: order of the checks, exact messages, range
  shape, list normalisation, and order and duplicates of the ids.
- **`Requests`**: the parts of `createAnalytics` that depend on its arguments, and the status
  test.
  - The endpoint chosen by the type.
  - The `Authorization` header.
  - The `stream_id` member of the body.
  - The status test.
- **`Application`**: the source's loops as methods, each proved to compute the matching
  `Grammar` or `Requests` function.
  - The range loop.
  - The `StringBuilder` loop.
  - The loop over the split parts, with its `continue`.
  - The dispatch loop, with its per-id catch.

  The HTTP exchange is a parameter `send: (nat, Request) -> Reply`. It gives the reply to the
  n-th request of the run: a response with a status and a body, or a thrown exception's message.
- **`RangeOverflow`**: the range loop exactly as written with a Java `int` counter. It shows the
  defect listed under Findings.
- **`Examples`**: concrete command lines and their outcomes.

The range form needs five tokens before the type, even when `TO` is left out. So
`tok FROM 1 5 od` is rejected with "Missing arguments for FROM/TO range.", and `FROM <start> <end>`
works only with a fifth, ignored, token before the type. The comment at
`VaCreatorApplication.java:94` names `<token> FROM x y` as the pattern when `TO` is missing,
but the length check at line 78 runs first and rejects that pattern. The usage text (line 307)
shows only the form with `TO`. The model follows the code. Because of the same length check, the "Missing end value in range." branch can never be taken
(`Grammar.RangeErrors`). Likewise, "Missing list for FOR command." can never reach the user
(`Grammar.MissingListUnreachable`).

## Model

| member | source | states |
|---|---|---|
| JavaStrings.Trim | src/main/java/com/example/vacreator/VaCreatorApplication.java:134 | `trim()` gives the empty string exactly when every character is at most U+0020; otherwise its first and last characters are above U+0020 |
| JavaStrings.TrimIsInfix | src/main/java/com/example/vacreator/VaCreatorApplication.java:145 | the trimmed string is the infix of the input left between a leading and a trailing run of characters at most U+0020 |
| JavaStrings.ToUpper | src/main/java/com/example/vacreator/VaCreatorApplication.java:33-34 | `toUpperCase()` keeps the length of the string |
| JavaStrings.ToUpperAt | src/main/java/com/example/vacreator/VaCreatorApplication.java:33-34 | `toUpperCase()` upper-cases each character where it stands |
| JavaStrings.ToUpperIdempotent | src/main/java/com/example/vacreator/VaCreatorApplication.java:34-36 | upper-casing an upper-cased type changes nothing |
| JavaStrings.SplitAll | src/main/java/com/example/vacreator/VaCreatorApplication.java:142 | cutting at every separator gives at least one piece, and no piece holds the separator |
| JavaStrings.JoinSplitAll | src/main/java/com/example/vacreator/VaCreatorApplication.java:142 | joining the comma-separated pieces with commas gives the string back |
| JavaStrings.SplitAllJoin | src/main/java/com/example/vacreator/VaCreatorApplication.java:142 | splitting joined comma-free pieces gives the pieces back |
| JavaStrings.DropTrailingEmpty | src/main/java/com/example/vacreator/VaCreatorApplication.java:142 | the result is a prefix of the pieces, ends in a non-empty piece, and only empty pieces were dropped |
| JavaStrings.Split | src/main/java/com/example/vacreator/VaCreatorApplication.java:142 | `split(",")` is `[s]` when s has no comma; otherwise it is the pieces between commas without the trailing empty ones, and its last piece is non-empty |
| JavaIntegers.Wrap | src/main/java/com/example/vacreator/VaCreatorApplication.java:109 | `i++` on an `int` lands in the int range, agrees with unbounded addition inside it and differs from it by a multiple of 2^32 |
| JavaIntegers.ParseInt | src/main/java/com/example/vacreator/VaCreatorApplication.java:85 | `Integer.parseInt` accepts only a value in the int range, written as ASCII digits with at most a leading sign, and ending in a digit |
| JavaIntegers.ParseIntOfDigits | src/main/java/com/example/vacreator/VaCreatorApplication.java:85 | conversely, an optional sign followed by one or more ASCII digits is accepted exactly when its value fits in an int, and gives that value, negated after a `-` |
| JavaIntegers.Digits | src/main/java/com/example/vacreator/VaCreatorApplication.java:177 | the decimal digits of n are non-empty, all digits, read back as n, and start with `0` only when n is 0 |
| JavaIntegers.ToDecimal | src/main/java/com/example/vacreator/VaCreatorApplication.java:177 | the text written for an int is non-empty, starts with `-` exactly when the int is negative, is digits otherwise, and has no leading zero |
| JavaIntegers.ParseIntToDecimal | src/main/java/com/example/vacreator/VaCreatorApplication.java:221 | `Integer.parseInt` reads back every int that string concatenation writes |
| JavaIntegers.MaxIntDecimal | src/main/java/com/example/vacreator/VaCreatorApplication.java:109 | `Integer.MAX_VALUE` is written 2147483647 |
| Grammar.Range | src/main/java/com/example/vacreator/VaCreatorApplication.java:108-111 | the ids from lo to hi: hi - lo + 1 of them (none when hi < lo), the k-th being lo + k |
| Grammar.EndIndex | src/main/java/com/example/vacreator/VaCreatorApplication.java:89-96 | the end bound is at index 4 exactly when the fourth token is `TO` in any case, and at index 3 otherwise |
| Grammar.ParseRange | src/main/java/com/example/vacreator/VaCreatorApplication.java:76-113 | a range is accepted only with at least five tokens and gives at least one id; it fails only with a missing-arguments, missing-end, invalid-start or invalid-end message |
| Grammar.RangeErrors | src/main/java/com/example/vacreator/VaCreatorApplication.java:78-104 | fewer than five tokens, then a bad start, then a bad end are reported in that order with their exact messages; "Missing end value in range." is never the result |
| Grammar.RangeOfBounds | src/main/java/com/example/vacreator/VaCreatorApplication.java:105-112 | with both bounds ints the range parses to (the distance between the bounds) + 1 strictly ascending ids from min to max, holding exactly the ints between them |
| Grammar.IntIsNotTo | src/main/java/com/example/vacreator/VaCreatorApplication.java:91 | a token that parses as an int is never taken for the TO keyword |
| Grammar.RangeIgnoresBoundOrder | src/main/java/com/example/vacreator/VaCreatorApplication.java:105-107 | exchanging the start and end tokens of a valid range gives the same ids |
| Grammar.JoinTokensStep | src/main/java/com/example/vacreator/VaCreatorApplication.java:128-133 | one more token is appended after a single space, or alone when it is the first |
| Grammar.JoinTokensSplits | src/main/java/com/example/vacreator/VaCreatorApplication.java:127-133 | tokens without spaces come back from their joined text split at the spaces |
| Grammar.SpaceRun | src/main/java/com/example/vacreator/VaCreatorApplication.java:138 | the length of the leading run of `\s` characters: all before it are `\s`, the one after it is not |
| Grammar.CollapseCommaSpace | src/main/java/com/example/vacreator/VaCreatorApplication.java:138 | `replaceAll("\\s*,\\s*", ",")` empties only the empty string, keeps a non-`\s` first character and leaves a comma-free string alone |
| Grammar.CollapseSplitsAtVisible | src/main/java/com/example/vacreator/VaCreatorApplication.java:138 | a character that is neither `\s` nor a comma splits the replacement into independent halves, so `\s` characters that touch no comma, as in `1 2,3`, are kept |
| Grammar.CollapseUnpadsCommas | src/main/java/com/example/vacreator/VaCreatorApplication.java:138 | after the replacement no `\s` character stands right before or right after any comma |
| Grammar.CollapseKeepsVisible | src/main/java/com/example/vacreator/VaCreatorApplication.java:138 | the replacement removes `\s` characters and nothing else: the non-`\s` characters stay, in order |
| Grammar.KeptParts | src/main/java/com/example/vacreator/VaCreatorApplication.java:144-148 | the parts that survive trimming are non-empty, start and end above U+0020, and are no more than the parts |
| Grammar.ParseParts | src/main/java/com/example/vacreator/VaCreatorApplication.java:143-155 | the part loop yields at most one id per part |
| Grammar.ParsePartsInOrder | src/main/java/com/example/vacreator/VaCreatorApplication.java:143-155 | the part loop succeeds exactly when every kept part is an int, and then yields one id per kept part, in order, duplicates included |
| Grammar.ParsePartsFirstError | src/main/java/com/example/vacreator/VaCreatorApplication.java:149-153 | a failing list is reported with "Invalid identifier in list: " and the first kept part that is not an int |
| Grammar.PartSkipped | src/main/java/com/example/vacreator/VaCreatorApplication.java:145-148 | a part that trims to nothing leaves the ids so far unchanged |
| Grammar.PartRejected | src/main/java/com/example/vacreator/VaCreatorApplication.java:151-152 | a part that is not an int ends the loop with its trimmed text in the message |
| Grammar.PartAccepted | src/main/java/com/example/vacreator/VaCreatorApplication.java:150 | an int part appends its value after those of the parts before it |
| Grammar.ParsePartsStopsAtError | src/main/java/com/example/vacreator/VaCreatorApplication.java:151-153 | once a prefix of the parts fails, the whole list fails with the same message |
| Grammar.StripOpenBracket | src/main/java/com/example/vacreator/VaCreatorApplication.java:136 | `replaceAll("^\\[", "")` removes one leading `[` when there is one and changes nothing otherwise |
| Grammar.StripCloseBracket | src/main/java/com/example/vacreator/VaCreatorApplication.java:136 | `replaceAll("\\]$", "")` removes one trailing `]` when there is one and changes nothing otherwise |
| Grammar.BracketsOnly | src/main/java/com/example/vacreator/VaCreatorApplication.java:136 | removing one leading `[` and one trailing `]` leaves nothing exactly for "", "[", "]" and "[]" |
| Grammar.NormalizedList | src/main/java/com/example/vacreator/VaCreatorApplication.java:134-138 | the joined, trimmed, unbracketed list after the comma replacement has no `\s` character next to any comma |
| Grammar.InvalidIdentifierMessage | src/main/java/com/example/vacreator/VaCreatorApplication.java:152 | every failure of the part loop starts with "Invalid identifier in list: " |
| Grammar.ParseList | src/main/java/com/example/vacreator/VaCreatorApplication.java:122-156 | a list is accepted only with at least three tokens; it fails only with the missing-list, no-identifiers or invalid-identifier message |
| Grammar.NothingListed | src/main/java/com/example/vacreator/VaCreatorApplication.java:134-141 | "No identifiers provided in list." is the result exactly when the joined, trimmed tokens are empty or brackets only |
| Grammar.BlankListIsEmpty | src/main/java/com/example/vacreator/VaCreatorApplication.java:136-155 | a list that is blank inside its brackets, such as `[ ]`, parses to no ids rather than to an error |
| Grammar.BlankParsesEmpty | src/main/java/com/example/vacreator/VaCreatorApplication.java:138-148 | a blank string survives the comma replacement unchanged and its single part is skipped |
| Grammar.ParseStreamIds | src/main/java/com/example/vacreator/VaCreatorApplication.java:46-54 | the keyword switch gives ids only for FROM or FOR in any case |
| Grammar.ParseArguments | src/main/java/com/example/vacreator/VaCreatorApplication.java:27-64 | an accepted command line has at least four tokens, keeps the first as the token, has a non-empty id list and an upper-cased type that is OD or SVA |
| Grammar.ArgumentChecksInOrder | src/main/java/com/example/vacreator/VaCreatorApplication.java:27-54 | fewer than four tokens give the usage alone; then an unknown type is reported upper-cased; then an unknown keyword is reported in its original case |
| Grammar.StreamIdsChecked | src/main/java/com/example/vacreator/VaCreatorApplication.java:44-64 | a parser error is shown with the usage, an empty id list gives "No stream identifiers provided." without it, and any other list is accepted unchanged |
| Grammar.AcceptedArguments | src/main/java/com/example/vacreator/VaCreatorApplication.java:32-64 | an accepted command line has a FROM or FOR keyword and an OD or SVA type, and its ids are non-empty and are what the chosen parser gives for the tokens before the type |
| Grammar.TypeIgnoresCase | src/main/java/com/example/vacreator/VaCreatorApplication.java:34-36 | two type tokens equal up to case lead to the same outcome |
| Grammar.SameArguments | src/main/java/com/example/vacreator/VaCreatorApplication.java:32-42 | the outcome depends only on the tokens before the type and on the type up to case |
| Grammar.MissingListUnreachable | src/main/java/com/example/vacreator/VaCreatorApplication.java:124-125 | no command line makes run report "Missing list for FOR command." |
| Grammar.StreamIdsNeverMissList | src/main/java/com/example/vacreator/VaCreatorApplication.java:46-54 | with at least three tokens before the type, the keyword switch never reports a missing list |
| Grammar.RangeNeverMissesList | src/main/java/com/example/vacreator/VaCreatorApplication.java:76-113 | the range parser never reports a missing list |
| Grammar.ListPresent | src/main/java/com/example/vacreator/VaCreatorApplication.java:124-125 | with at least three tokens the list parser never reports a missing list |
| Requests.AnalyticsRequest | src/main/java/com/example/vacreator/VaCreatorApplication.java:173-221 | the request goes to one of the two endpoints, its Authorization value is `Bearer ` followed by the token, and its body member starts with the `stream_id` key followed by a value |
| Requests.RequestEndpoint | src/main/java/com/example/vacreator/VaCreatorApplication.java:173-218 | the smart_va endpoint is chosen exactly when the type is SVA in any case, and the object_in_zone one exactly otherwise |
| Requests.RequestBody | src/main/java/com/example/vacreator/VaCreatorApplication.java:285-291 | the token goes into a Bearer header, and the body's stream_id member reads back as the stream id |
| Requests.Classify | src/main/java/com/example/vacreator/VaCreatorApplication.java:294-300 | an outcome is created exactly for a response with status in 200..299, refused with that status and body for any other response, and failed with the message exactly for a caught exception |
| RangeOverflow.RangeLoop | src/main/java/com/example/vacreator/VaCreatorApplication.java:109-111 | when the int loop exits within its guard tests, it has added fewer ids than guard tests, each at most the upper bound, starting at the first value, and none when the first value is above the bound |
| RangeOverflow.NeverExitsAtMax | src/main/java/com/example/vacreator/VaCreatorApplication.java:109-111 | with `to == Integer.MAX_VALUE` the loop exits after no number of guard tests |
| RangeOverflow.ExitsBelowMax | src/main/java/com/example/vacreator/VaCreatorApplication.java:109-111 | below `Integer.MAX_VALUE` the int loop exits after hi - lo + 2 guard tests with exactly the ids from lo to hi |
| RangeOverflow.MaxBoundNeverFinishes | src/main/java/com/example/vacreator/VaCreatorApplication.java:106-111 | `FROM 2147483647 TO 2147483647` passes every check, and the loop it reaches never exits |
| Application.ParseRangeArgs | src/main/java/com/example/vacreator/VaCreatorApplication.java:76-113 | the method with the range loop computes the range parser's result, errors included |
| Application.JoinListTokens | src/main/java/com/example/vacreator/VaCreatorApplication.java:127-133 | the `StringBuilder` loop builds the tokens after the keyword, one space apart |
| Application.ParseIdentifiers | src/main/java/com/example/vacreator/VaCreatorApplication.java:142-155 | the loop with `continue` over the split parts computes the part loop's result |
| Application.ParseForArgs | src/main/java/com/example/vacreator/VaCreatorApplication.java:122-156 | the method computes the list parser's result, errors included |
| Application.CheckArguments | src/main/java/com/example/vacreator/VaCreatorApplication.java:27-64 | the checks of run, step by step, give the outcome that the argument grammar describes |
| Application.Dispatch | src/main/java/com/example/vacreator/VaCreatorApplication.java:66-73 | the dispatch loop makes exactly one attempt per id, in order; the n-th attempt gets the n-th reply, whatever became of the earlier ones |
| Application.Run | src/main/java/com/example/vacreator/VaCreatorApplication.java:25-74 | run sends nothing exactly when the arguments are rejected, and then reports that rejection; otherwise it dispatches in order |
| Application.DispatchedAttempts | src/main/java/com/example/vacreator/VaCreatorApplication.java:169-300 | the i-th attempt is for the i-th id, goes to the endpoint of the type, carries the id in its body, and counts as created exactly when the reply is a status in 200..299 |
| Examples.RangeDownward | src/main/java/com/example/vacreator/VaCreatorApplication.java:105-111 | `from 7 to 3 SVA` asks for streams 3 to 7 ascending, with the type upper-cased |
| Examples.RangeTooShort | src/main/java/com/example/vacreator/VaCreatorApplication.java:78-80 | `FROM 3 7 od` is rejected for too few range arguments |
| Examples.RangeWithoutTo | src/main/java/com/example/vacreator/VaCreatorApplication.java:89-96 | `FROM 3 7 x od` takes 7 as the end bound and ignores `x` |
| Examples.BadStart | src/main/java/com/example/vacreator/VaCreatorApplication.java:84-88 | a start that is not an int is reported as written |
| Examples.BadEnd | src/main/java/com/example/vacreator/VaCreatorApplication.java:100-104 | an end that is not an int is reported as written |
| Examples.UnknownType | src/main/java/com/example/vacreator/VaCreatorApplication.java:34-40 | an unknown type is reported upper-cased, before the keyword is looked at |
| Examples.UnknownCommand | src/main/java/com/example/vacreator/VaCreatorApplication.java:50-54 | an unknown keyword is reported in its original case |
| Examples.TooFewTokens | src/main/java/com/example/vacreator/VaCreatorApplication.java:27-30 | three tokens give the usage alone |
| Examples.EmptyBrackets | src/main/java/com/example/vacreator/VaCreatorApplication.java:134-141 | `FOR [] od` reports that no identifiers were listed |

## Left out

- `main` and the Spring Boot start-up (lines 20-22) are not modelled: they only hand the
  arguments to `run`.
- The HTTP client is a parameter, not a model. This covers building the request, the
  30-second timeout, the `Content-Type` header, and sending (lines 285-293).
- The JSON bodies (lines 175-216 and 219-282) are fixed text. Only their `stream_id` member,
  which depends on the arguments, is modelled.
- Console output, the failure lines and the `printUsage` text (lines 306-319) are left out. A
  rejection is a value: the message, and whether the usage follows it.
- `args == null` cannot happen when a Java program is started from a command line. The model's
  arguments are a sequence.
- `toUpperCase`, `equalsIgnoreCase` and `Integer.parseInt` are modelled on ASCII only. Java's
  full Unicode case mapping (for example U+017F becoming 'S') and its non-ASCII decimal digits
  are left out.
- The regex `$` in `replaceAll("\\]$", "")` also matches before a final line terminator. The
  model removes a `]` only at the very end. The two differ only when such a character survives
  `trim()`, which only the non-ASCII line terminators U+0085, U+2028 and U+2029 do.
- Running out of memory on a very large range is not modelled. The model builds ranges with
  unbounded integers.
- Application.ParseRangeArgs: does not model the 32-bit counter of the loop. With an upper
  bound of `Integer.MAX_VALUE` the guard of the loop as written never becomes false, and ids
  are added until memory runs out. That behaviour is modelled apart, in RangeOverflow, and listed under Findings.
- Application.Dispatch: catches, per id, only the two exceptions of line 70 (`IOException` and
  `InterruptedException`, given as a `Thrown` reply). Any other exception ends `run` at once,
  and the model leaves it out. One example is the `IllegalArgumentException` that the `.header`
  call at line 289 throws for a token holding a character not allowed in a header value.
- JavaStrings.ToUpper: its own contract states only the length. The character-wise mapping is
  stated by JavaStrings.ToUpperAt.
- JavaStrings.ToUpper: assumes a default locale whose upper-casing of ASCII is the plain one.
  `toUpperCase()` at lines 33-34 uses the JVM's default locale. Under a Turkish (tr) or Azeri
  (az) locale, ASCII `i` becomes U+0130. Then the type `xi` is reported as "X" followed by
  U+0130, not "XI". Accepting and rejecting are the same under both locales, since none of OD,
  SVA, FROM and FOR contains an I; only the echoed type in that message differs.
- A worked example of a successful FOR list is not included. The list parser's behaviour is
  stated for all inputs by Grammar.ParsePartsInOrder, Grammar.ParsePartsFirstError,
  Grammar.NothingListed and Grammar.BlankListIsEmpty.

## Findings

| source | as written | input that shows it | evidently intended | confidence | as-written member | corrected member |
|---|---|---|---|---|---|---|
| src/main/java/com/example/vacreator/VaCreatorApplication.java:109-111 | `for (int i = from; i <= to; i++)` with an `int` counter: when `to` is `Integer.MAX_VALUE`, `i++` wraps to `Integer.MIN_VALUE`, the guard never becomes false, and the loop adds ids until memory runs out (an `OutOfMemoryError`, which the catch at line 55 does not catch) | `tok FROM 2147483647 TO 2147483647 od` | the ids from `from` to `to` inclusive, here the single id 2147483647 | high; not executed | RangeOverflow.MaxBoundNeverFinishes | Application.ParseRangeArgs |

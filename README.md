# nirvana-logger, modelled in Dafny

A model of `index.js` of nirvana-logger, a Node.js logger. Each call to a logger:

1. finds its caller in the stack trace and shortens the file path;
2. renders every argument to text, truncating long strings and serialised objects and serialising errors;
3. prints a header line (timestamp, file, scope, trace-id bracket and elapsed time) and the content.

In cluster ("K8") mode it also appends a JSON record to a log file and counts its lines. After 200 lines the counter silences the console.

The model has these modules:

- `Wrappers`: the `Option` type, and `AllSome` for a `map` whose callback may throw.
- `Text`: the JavaScript built-ins the logger uses, stated on `seq<char>`:
  - `slice` with negative indices;
  - `replace` with a string pattern, which replaces only the first occurrence;
  - `split` and `join` with a one-character separator;
  - the decimal form of a number.
- `Values`: the kinds of JavaScript value the logger tells apart, and the code it calls without defining. `util.inspect`, `fast-safe-stringify`, `String()` of objects and the colouring library become uninterpreted function fields of a `Collaborators` record.
- `Mode`: the environment record and the cluster, production and plain-output predicates.
- `Format`:
  - `strSlice`, `replaceBank` and the mode-dependent `stringify`;
  - `errorStringify`;
  - the per-argument classification of `args.map` and the content line;
  - `formatDate`, with the explicit layouts its two templates produce.
- `CallSite`: the two stack-line regular expressions, and the shortening of the path to its last two segments.
  - Each pattern is defined by the decompositions of the line it admits (`NamedMatch`, `UnnamedMatch`).
  - What `exec` reports is defined by the choice backtracking makes among them (`NamedChosen`, `UnnamedChosen`).
  - `ExecNamed` and `ExecUnnamed` compute that choice by searching the line, and are proved to return it.
  - For the first pattern, the greedy groups first fix the last `:\d*:\d*)` tail, then the last `(` that follows a space and comes before that tail. For the second, they give the text after the `at` and its spaces, up to the last `:\d*:` tail.
- `Logging`: the header pieces, the cluster-mode record, the module-wide counter (class `ModuleState`) and the logger (class `Logger`).
  - `Logger` has the settings its setters change, and a `Log` method for one call.
  - `Log` changes only the counter, and returns what is printed and what is written to the file.

Inputs the program reads from the outside world are parameters:

- the environment;
- the date fields and the elapsed milliseconds;
- the caller's stack line;
- whether the log file exists, and whether creating it succeeds.

Behaviours proved that a reader may not expect:

- Milliseconds below 10 come out two digits wide (`PadMillis`), because the code pads with a single `0` and then takes the last three characters.
- The compact template holds no `YYYY`, so the year shows as its last two digits (`FormatCompact`).

Behaviours of the code that a reader might expect to be otherwise:

- A Symbol argument, or an error whose `stack` is a Symbol, makes `join` or the template literal throw. The whole call is then caught and prints nothing (`ArgTextFails`). It does not get a textual form.
- Cluster mode counts a line only when the call gets as far as writing the file. A call that fails before that, or whose file creation throws, leaves the counter unchanged.
- Not every date field is zero-padded to its template width: see the milliseconds above.

## Model

| member | source | states |
|---|---|---|
| Text.SlicePrefix | index.js:88 | `slice(0, n)` with `n >= 0` is the first `n` characters, or the whole string when it is shorter |
| Text.SliceLast | index.js:71-78 | `slice(-k)` is the last `k` characters, or the whole string when it is shorter |
| Text.IndexOf | index.js:71-78 | the search `replace` does finds the first occurrence of the token, and reports none only when the token does not occur |
| Text.ReplaceFirstSplices | index.js:71-78 | `replace` with a string pattern splices the replacement in at the first occurrence only |
| Text.ReplaceFirstMissing | index.js:71-78 | `replace` leaves a string without the token unchanged |
| Text.ReplaceFirstAfter | index.js:71-78 | when the token's first character does not occur before it, the occurrence after that prefix is the one replaced |
| Text.NatToString | index.js:67-70 | the decimal form of a number is digits only, one digit exactly below 10, and has no leading zero |
| Text.ParseNatToString | index.js:67-70 | reading the decimal form back gives the number |
| Text.Split | index.js:115 | `split('/')` gives at least one segment, and no segment holds `/` |
| Text.JoinSplit | index.js:115-117 | joining the segments of `split(d)` with `d` gives the string back |
| Text.SplitJoin | index.js:115-117 | splitting a join of `/`-free segments gives the segments back |
| Text.JoinContains | index.js:56 | every joined part occurs in the joined text |
| Wrappers.AllSome | index.js:124-141 | a `map` whose callback may throw succeeds exactly when every element succeeds, with the values in order |
| Mode.IsK8Env | index.js:36-39 | cluster mode iff `LOG_PATH` and `LOG_FILE_NAME` are both set and non-empty |
| Mode.IsProdEnv | index.js:44 | production iff `env` is set to exactly `production` |
| Mode.IsPlain | index.js:111 | output is plain (uncoloured, compact serialiser) iff cluster mode or production holds |
| Format.Stringify | index.js:20-25 | in cluster or production mode the value goes through `fast-safe-stringify`, otherwise through `util.inspect` |
| Format.ErrorStringify | index.js:51-58 | fails exactly when one of the property lines fails; otherwise the lines joined by newlines, plain in cluster or production mode and painted red otherwise |
| Format.Limit | index.js:127-138 | the truncation limit is never 0: the set `strMaxLen` when it is set and non-zero, otherwise the default of 512 |
| Format.FormatDate | index.js:65-79 | a template holding none of the eight tokens comes back unchanged, and so does one with none of the letters Y, M, D, H, m, s, S |
| Format.StrSlice | index.js:87-89 | the result is a prefix of the input: the input itself when no longer than the limit, otherwise exactly the first `length` characters, with no marker |
| Format.ReplaceBank | index.js:96-100 | whitespace squeezing is off: the string is returned unchanged |
| Format.ErrorLines | index.js:51-56 | one `key: value` line per own property, in order: `stack` raw and every other value through `stringify`; fails exactly when a `stack` value is a Symbol |
| Format.ErrorShowsStack | index.js:51-57 | in plain mode an error with a string stack serialises to text containing `stack: ` followed by the stack |
| Format.Render | index.js:124-141 | first match wins: a string is truncated to `strMaxLen`, or to 512 when unset or 0; null and undefined become `null` and `undefined`; an error becomes a newline plus its serialisation; a function becomes `function`; another object becomes its truncated serialisation, which is the whole serialisation when it fits the limit; anything else is returned as is |
| Format.ArgTexts | index.js:124-141 | when no argument fails, the texts of `args.map`, one per argument and in order |
| Format.Content | index.js:124-143 | the content line exists exactly when every argument has a text; it is those texts joined by single spaces, and contains each of them |
| Format.ArgTextsAppend | index.js:124-141 | `args.map` over two runs of arguments placed one after the other gives the texts of the first run followed by those of the second, and succeeds only when both runs do |
| Format.ContentAppend | index.js:143 | the content of two non-empty argument lists placed one after the other is the two contents joined by a space, and exists exactly when both do |
| Format.ArgTextFails | index.js:124-143 | an argument fails the call exactly when it is a Symbol, or an error whose `stack` is a Symbol |
| Format.ContentOfOne | index.js:143 | with a single argument the content line is that argument's text |
| Format.Pad | index.js:67-70 | a field is the last `width` characters of `0` followed by the decimal value: digits only, `min(width, digits + 1)` wide |
| Format.PadTwoDigits | index.js:67-78 | every two-wide field is exactly two digits, and denotes the value modulo 100 |
| Format.PadMillis | index.js:67-78 | the milliseconds field denotes the milliseconds; it is three wide from 10 on, but only two wide below 10 |
| Format.PadYear | index.js:67-78 | a four-digit year comes out as itself |
| Format.FormatCluster | index.js:65-79 | `YYYY-MM-DD HH:mm:ss.SSS` becomes the padded fields, in that layout (`ClusterStamp`) |
| Format.FormatCompact | index.js:65-79 | `YYMMDD/HHmmss.SSS` becomes the padded fields, in that layout (`CompactStamp`); the `YYYY` step finds nothing, so the year is two-wide |
| CallSite.ExecNamed | index.js:29 | `exec` of the named-function pattern fails exactly when no match exists; otherwise it gives group 2 of the leftmost match whose `(` and then group-2 end lie furthest right |
| CallSite.ExecUnnamed | index.js:30 | `exec` of the anonymous pattern fails exactly when no match exists; otherwise it gives group 2 of the leftmost match with the longest space run and then the longest group 2 |
| CallSite.NamedChoiceUnique | index.js:29 | the choice among matches of the named pattern fixes group 2 uniquely |
| CallSite.UnnamedChoiceUnique | index.js:30 | the choice among matches of the anonymous pattern fixes group 2 uniquely |
| CallSite.MatchedPath | index.js:113-115 | the named pattern's group 2 when it matches, otherwise the anonymous pattern's; no path, so the call throws, exactly when neither matches |
| CallSite.ShortPath | index.js:115-117 | the shortened path is a suffix of the path, and its segments are the last `min(2, n)` segments of the path |
| Logging.Timestamp | index.js:120-121 | the cluster layout in cluster mode; the compact layout in production mode; the compact layout painted gray otherwise |
| Logging.FileLabel | index.js:119 | the `setFileName` name when non-empty; otherwise the shortened path, painted red outside plain mode |
| Logging.Scope | index.js:122 | `【name】` in plain mode, reading `null` when there is no name space; outside plain mode the painted bracket, or nothing when the name space is empty or absent |
| Logging.TraceBracket | index.js:163 | empty exactly when the trace id is empty; otherwise the id between square brackets |
| Logging.Header | index.js:163-165 | the header is exactly as long as its pieces plus one space and the `[`, `ms]` around the elapsed time |
| Logging.HeaderFields | index.js:165 | the header starts with the timestamp and a space, then the file, and ends with `[<elapsed>ms]` |
| Logging.HeaderShowsTrace | index.js:145-165 | a non-empty trace id appears in the header in brackets; with an empty one the elapsed time follows the scope directly |
| Logging.HeaderShowsScope | index.js:165 | the scope stands in the header right after the file |
| Logging.HeaderElapsed | index.js:164-165 | for a non-negative elapsed time, the digits before `ms]` read back as that time |
| Logging.HeaderTimestamp | index.js:120-121 | a cluster-mode header starts with the long date layout, a production header with the compact one |
| Logging.Record | index.js:151 | the record has the seven properties `serviceName`, `timestamp`, `file`, `scope`, `traceId`, `env`, `content` in that order; `timestamp`, `file`, `scope`, `traceId` and `content` carry the call's pieces; `serviceName` and `env` the environment's values |
| Logging.RecordInClusterMode | index.js:149-151 | in cluster mode the record goes through the compact serialiser and names the header's timestamp |
| Logging.ModuleState.constructor | index.js:16 | the line counter starts at 0 |
| Logging.Logger.constructor | index.js:107-108 | a new logger has its name space and no settings |
| Logging.Logger.SetId | index.js:176-179 | stores the trace id, changes nothing else, and returns the same logger |
| Logging.Logger.SetLog | index.js:186-189 | stores the output function, changes nothing else, and returns the same logger |
| Logging.Logger.SetMaxLength | index.js:195-198 | stores the limit (512 when none is given), changes nothing else, and returns the same logger |
| Logging.Logger.SetFileName | index.js:205-208 | stores the file name (empty when none is given), changes nothing else, and returns the same logger |
| Logging.Logger.Prepare | index.js:112-145 | the call's pieces exist exactly when the frame resolves and every argument renders; the file is the label of the shortened path (the override when non-empty, else the shortened path in plain mode); the trace is the `setId` id or empty; scope, timestamp and content are those of the mode |
| Logging.Logger.PreparedHeaderShows | index.js:145-165 | a header built from the call's pieces shows a non-empty trace id in square brackets, and in plain mode the bracketed name space |
| Logging.Logger.Sink | index.js:162 | prints through the `setLog` function when one is set, otherwise through `console.log` |
| Logging.Logger.Log | index.js:107-169 | a throwing call changes nothing; in cluster mode a successful call writes the record (creating the file iff it is missing), adds exactly one to the counter, and is silent iff the counter then exceeds 200; otherwise it prints the header of the call's pieces and the content |

## Left out

- Colouring (`chalk`) is the uninterpreted `paint`. The model does not say what a painted string looks like.
- `util.inspect` and `fast-safe-stringify` are uninterpreted functions. The `LOG_COLOR` option passed to `inspect` lives inside them, and so do their own failures (for example a throwing getter).
- `path.join` and the file system:
  - a write names the two variables it joins;
  - the asynchronous `appendFile` is assumed to be issued;
  - a throwing `writeFileSync` is the `createOk` input.
- `new Date()` and the elapsed-time measurement are inputs (the date fields and the elapsed milliseconds).
- Capturing the stack (`new Error().stack` and taking its third line) is not modelled. The frame line is an input.
- `console.log`, the diagnostic `console.trace` in the catch block, and the `warn`/`trace`/`error` aliases are output plumbing. `Log` reports a failed call as `Failed` and ignores what the output function returns.
- `setLength` and `setName` are the same functions as `setMaxLength` and `setFileName`, so they are not separate members.
- Strings are sequences of Unicode code points. JavaScript counts UTF-16 code units, so truncation and `slice` differ for characters outside the Basic Multilingual Plane.
- CallSite.ExecNamed: `.` is taken to match every character. In JavaScript it does not match `\r`, U+2028 or U+2029 (a single stack line cannot hold `\n`), so a frame line holding one of them is outside the model.
- CallSite.ExecUnnamed: the same treatment of `.` as for the named pattern.
- Logging.Logger.SetMaxLength: only integer limits (or none) are modelled. A non-integer, `null` or another type given to the setter is not.
- Logging.Logger.SetId: trace ids, file names and name spaces are modelled as strings (or absent). Numbers or objects given there would be converted by JavaScript and are not modelled.
- Format.ErrorShowsStack: proved for plain mode only. Outside it the text passes through the uninterpreted colouring function.
- Format.Render: the argument kinds are given as a `Value` tag. `lodash.isString` on a boxed `String` object and other exotic objects are not modelled.

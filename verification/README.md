# helm-wrapper in Dafny

A model of the helm-wrapper library: a thin layer that validates
caller-supplied parameters against small per-operation schemas, serializes
them into a command line for the `helm` executable, runs it, and returns the
output JSON-parsed, wrapped as `{ message }`, or raw. Errors fall into three
classes: a missing parameter, an invalid parameter, and a failed command.

The model is split into modules that follow the library's files:

- `JsValues` (`js_values.dfy`) covers the JavaScript values the library handles. It models `typeof`, truthiness, `String.prototype.trim`, template-literal rendering, `Array.prototype.join`, own-property lookup, and a mutable array with `push`.
- `Errors` (`errors.dfy`) holds the three error classes and their messages.
- `Schemas` (`schema.dfy`) holds the seven static schema tables. Each table is an ordered sequence of `(key, type, required)` fields.
- `Helper` (`helper.dfy`) holds two things:
  - `ParseArgs`, an imperative loop proved against the function `SerializeArgs`, which states what it returns.
  - `Validate`, the schema and flags validator, as a pure function returning `Pass` or the first error it throws.
- `Helm` (`helm.dfy`) is the `Helm` facade: `buildCommand`, `exec` and the eight operations. `list` is a method that pushes onto the caller's array in place.
- `Application` (`application.dfy`) is the near-duplicate `Application` facade. It shares `buildCommand` and `exec` with `Helm`, whose code is the same.

The `helm` executable is a parameter of every operation, `Binary = string -> ExecResult`. It gives, for each command line, either the captured stdout or a failure with an optional stderr. The property "a validation error runs nothing" is therefore stated as "the result is the same whatever the binary would answer". `JSON.parse(output)` is represented by the tag `Json(output)`.

The lemmas pin down the following:
- which error wins, and in what order the checks run;
- the exact command line each operation runs;
- the quirks of the library:
  - revision `0` is dropped from `rollback`;
  - an empty release name passes validation and is then dropped;
  - `Helm.list` accumulates `-o json` in the caller's array;
  - `Application.list` ignores its flags;
  - `Application.custom` comma-joins its flags and renders absent flags as `undefined`;
  - `exec` turns its own empty-command guard into a `CommandError` whose message is `undefined`.

## Model

| member | source | states |
|---|---|---|
| JsValues.Trim | lib/helper.js:18 | `trim` returns the slice of its input between the whitespace prefix and the whitespace suffix. The result is empty exactly when the input is all whitespace, and otherwise neither begins nor ends with whitespace. |
| JsValues.IntToString | lib/helper.js:15 | An integer renders as a word without surrounding whitespace. It renders as "0" exactly when it is zero. |
| JsValues.JoinWordsClean | lib/helper.js:15-18 | Joining words with single spaces gives a string with no surrounding whitespace. |
| JsValues.IndexOfKey | lib/helper.js:36 | Finds the array index whose decimal form is the key, if there is one, as `hasOwnProperty` does on an array. |
| JsValues.ArrayJoinStrings | lib/helm.js:125 | `join` on an array of strings is those strings with the separator between neighbours. |
| JsValues.JsArray.Push | lib/helm.js:124 | `push` appends exactly one element to the array in place. |
| Errors.ParseParamMessage | lib/errors.js:1-11 | Reading a message back gives a parameter error whose message is that message, if the message has the form of one. |
| Errors.ParamMessageRoundTrip | lib/errors.js:1-11 | A parameter error's message identifies its class and its parameter exactly. |
| Errors.ParamMessagesDiffer | lib/errors.js:1-11 | A missing-parameter message never equals an invalid-parameter message. |
| Errors.CommandMessage | lib/errors.js:13-17 | A command error's message is its stderr verbatim, or "undefined" when there is none. |
| Schemas.Lookup | lib/schema.js:1-74 | Exactly the seven exported names have a schema. Every field is required and no key repeats. Every type is string or number, and `rollback`'s `revision` is the only number field. |
| Schemas.DeclaredFields | lib/schema.js:1-74 | Each schema's keys in order: install and upgrade have release, chart; uninstall and history have release; rollback has release, revision; repoAdd has repositoryName, url; custom has name. There is no list schema. |
| Helper.ParseArgs | lib/helper.js:7-19 | The loop returns the trimmed accumulator of its tokens. The result is empty or free of surrounding whitespace. |
| Helper.AccumIsJoin | lib/helper.js:8-16 | After the loop, the accumulator is the truthy tokens joined by single spaces, with one trailing space. |
| Helper.TrimTrailingSpace | lib/helper.js:15-18 | Trimming a word plus one space gives the word back. |
| Helper.SerializeIsJoin | lib/helper.js:7-19 | If each truthy token renders as a word, parseArgs is those renderings, in order, one space apart. |
| Helper.AccumAppend | lib/helper.js:10-16 | The accumulator of concatenated token lists is the concatenation of their accumulators. |
| Helper.TruthyStringsAppend | lib/helper.js:10-16 | The kept tokens of concatenated lists are the concatenation of the kept tokens of each list. |
| Helper.SkipsFalsy | lib/helper.js:11-13 | Inserting a falsy token (`""`, 0, false, null, undefined) anywhere leaves parseArgs unchanged. |
| Helper.WordsAllKept | lib/helper.js:11-15 | No word token is skipped. |
| Helper.SerializeWords | lib/helper.js:7-19 | parseArgs on word tokens is all of them, in order, one space apart. |
| Helper.SerializeEmpty | lib/helper.js:8-18 | parseArgs of no tokens is the empty string. |
| Helper.WordPair | lib/helper.js:7-19 | Two words serialize to their renderings separated by one space. |
| Helper.SkipsBetween | lib/helper.js:11-18 | Falsy tokens between two words vanish with their separators: the words end up one space apart. |
| Helper.SerializeExample | lib/helper.js:7-19 | `parseArgs(["a", "", null, "b"])` is "a b". |
| Helper.CheckFields | lib/helper.js:35-43 | The schema loop passes exactly when every required key is an own property whose `typeof` is the declared type. Otherwise it fails with a MissingParamError naming "[key]" for a field that does not hold. |
| Helper.FirstFailureWins | lib/helper.js:35-43 | The first failing field in schema order decides the error. |
| Helper.OnlyRequiredMatter | lib/helper.js:35-43 | Fields with `required` false never affect the outcome. |
| Helper.OtherKeysIgnored | lib/helper.js:35-43 | Parameter objects that agree on the schema's keys are checked alike, so keys outside the schema never cause a failure. |
| Helper.CheckFlags | lib/helper.js:45-55 | Flags pass exactly when they are falsy or an array of strings. A truthy non-array fails with "[flags]"; an array with a non-string element fails with "[flag]". |
| Helper.Validate | lib/helper.js:26-56 | A non-object fails with "invalid parameters object" before the schema is looked at. A missing schema fails with "invalid schema object". The call passes exactly when both are objects, all fields hold and the flags pass. Field errors take precedence over flag errors. No other error is possible. |
| Helm.BuildCommand | lib/helm.js:258-260 | The command line is "helm ", the subcommand, one space and the arguments, so it is never empty. Application's textually identical `buildCommand` (lib/application.js:184-186) is this function too. |
| Helm.Exec | lib/helm.js:267-279 | Every error is a CommandError. The empty command fails with `CommandError(undefined)`. Otherwise the result is the binary's stdout, or a CommandError carrying its stderr. Application's identical `exec` (lib/application.js:193-205) is this function too. |
| Helm.EmptyCommandMessage | lib/helm.js:269-277 | The guard's error comes out with the message "undefined". |
| Helm.RunBuilt | lib/helm.js:39-40 | A built command line goes straight to the binary, because exec's guard cannot fire for it. |
| Helm.PrepareMissing | lib/helm.js:32-39 | When a schema field fails, the operation's error is the MissingParamError of the first failing field, and no command is built. |
| Helm.PrepareFlags | lib/helm.js:32-39 | Once all fields hold, the flags decide between their InvalidParamError and the built command line. |
| Helm.Install | lib/helm.js:28-46 | Success is JSON-parsed output. The only errors are "[release]" or "[chart]" missing, the two flag errors, and CommandError. |
| Helm.Uninstall | lib/helm.js:56-75 | Success is `{ message: output }`. The only errors are "[release]" missing, the flag errors, and CommandError. |
| Helm.Upgrade | lib/helm.js:90-108 | Success is JSON-parsed output. The errors are those of install. |
| Helm.List | lib/helm.js:121-132 | "-o json" is pushed onto the caller's array, or onto a fresh one when none is given. The command joins all the array's elements with spaces. There is no validation. |
| Helm.History | lib/helm.js:142-158 | Success is JSON-parsed output. The only errors are "[release]" missing, the flag errors, and CommandError. |
| Helm.Rollback | lib/helm.js:170-190 | Success is `{ message: output }`. The only errors are "[release]" or "[revision]" missing, the flag errors, and CommandError. |
| Helm.AddRepository | lib/helm.js:205-225 | Success is `{ message: output }`. The only errors are "[repositoryName]" or "[url]" missing, the flag errors, and CommandError. |
| Helm.Custom | lib/helm.js:235-250 | Success is the raw output. The only errors are "[name]" missing, the flag errors, and CommandError. |
| Helm.InstallValidatesFirst | lib/helm.js:32-40 | An install error other than CommandError is the same for every binary, so nothing was run. |
| Helm.UpgradeValidatesFirst | lib/helm.js:94-102 | The same for upgrade. |
| Helm.UninstallValidatesFirst | lib/helm.js:60-67 | The same for uninstall. |
| Helm.HistoryValidatesFirst | lib/helm.js:145-152 | The same for history. |
| Helm.RollbackValidatesFirst | lib/helm.js:174-182 | The same for rollback. |
| Helm.AddRepositoryValidatesFirst | lib/helm.js:209-217 | The same for addRepository. |
| Helm.CustomValidatesFirst | lib/helm.js:237-244 | The same for custom. |
| Helm.InstallChecks | lib/helm.js:32-42 | Validation order is release, then chart, then flags. An omitted argument is an own key holding `undefined` and fails its type check. With everything valid, install runs "install" with parseArgs of [release, chart, "-o json", ...flags]. |
| Helm.InstallCommandLine | lib/helm.js:38-42 | With word arguments and word flags, the command is `helm install <release> <chart> -o json <flags...>`. |
| Helm.InstallEmptyRelease | lib/helm.js:32-39 | An empty release name passes validation and is dropped, so the chart comes first on the command line. |
| Helm.UpgradeChecks | lib/helm.js:94-104 | Upgrade validates and builds exactly as install does, with subcommand "upgrade". |
| Helm.UpgradeCommandLine | lib/helm.js:100-104 | The command is `helm upgrade <release> <chart> -o json <flags...>`. |
| Helm.UninstallChecks | lib/helm.js:60-71 | Validation order is release, then flags. The command is built from [release, ...flags]. |
| Helm.UninstallCommandLine | lib/helm.js:65-71 | The command is `helm uninstall <release> <flags...>`. |
| Helm.HistoryChecks | lib/helm.js:145-154 | Validation order is release, then flags. The command is built from [release, "-o json", ...flags]. |
| Helm.HistoryCommandLine | lib/helm.js:150-154 | The command is `helm history <release> -o json <flags...>`. |
| Helm.RollbackChecks | lib/helm.js:174-186 | Validation order is release, then revision (which must be a number), then flags. The command is built from [release, revision, ...flags]. |
| Helm.RollbackCommandLine | lib/helm.js:180-186 | A nonzero revision follows the release as its decimal form. Revision 0 is silently left off the command line. |
| Helm.AddRepositoryChecks | lib/helm.js:209-221 | Validation order is repositoryName, then url, then flags. The subcommand is "repo add". |
| Helm.AddRepositoryCommandLine | lib/helm.js:215-221 | The command is `helm repo add <repositoryName> <url> <flags...>`. |
| Helm.CustomChecks | lib/helm.js:237-246 | Validation order is name, then flags. The name is the subcommand and the serialized flags are its arguments. |
| Helm.CustomCommandLine | lib/helm.js:242-246 | With word flags, the command is `helm <name> <flags...>`. |
| Helm.CustomWithoutFlags | lib/helm.js:242-243 | Without flags, the command line ends in the separating space. |
| Helm.ListCommandLine | lib/helm.js:124-125 | The command is `helm list `, then the caller's elements joined by spaces, then one more space if there are any, then "-o json". |
| Helm.ListPlainExactlyWhenEmpty | lib/helm.js:124-125 | The command is exactly `helm list -o json` if and only if the caller's array was empty before the push. |
| Helm.ListKeepsEmptyFlags | lib/helm.js:125 | An empty-string flag is not skipped: it leaves a double space. |
| Helm.ListTwice | lib/helm.js:121-125 | Calling list twice with the same array runs `helm list -o json`, then `helm list -o json -o json`. |
| Helm.InstallExample | lib/helm.js:28-42 | `install('nginx', 'bitnami/nginx', [])` runs `helm install nginx bitnami/nginx -o json` and returns its parsed JSON. |
| Helm.UninstallExample | lib/helm.js:56-71 | `uninstall('nginx', [])` runs `helm uninstall nginx` and wraps its output as the message. |
| Helm.RollbackFailureExample | lib/helm.js:170-182 | `rollback('app', 3, [])` runs `helm rollback app 3`. When that fails with stderr "release: not found", the CommandError's message is exactly that text. |
| Application.Install | lib/application.js:17-35 | Equal to `Helm.install` on every input. |
| Application.Uninstall | lib/application.js:42-61 | Equal to `Helm.uninstall` on every input. |
| Application.Upgrade | lib/application.js:69-87 | Equal to `Helm.upgrade` on every input. |
| Application.History | lib/application.js:110-126 | Equal to `Helm.history` on every input. |
| Application.Rollback | lib/application.js:134-154 | Equal to `Helm.rollback` on every input. |
| Application.List | lib/application.js:93-103 | Success is JSON-parsed output, and the only error is CommandError: there is no validation. |
| Application.ListIgnoresFlags | lib/application.js:96 | Whatever flags are given, list runs `helm list -o json`. |
| Application.ListAgreement | lib/application.js:93-103 | `Application.list` always runs `helm list -o json`; `Helm.list` (lib/helm.js:121-132) runs that same command line exactly when it gets no array or an empty one, and then both give the same result. |
| Application.Custom | lib/application.js:162-176 | Success is the raw output. The only errors are "[name]" missing, the flag errors, and CommandError. |
| Application.CustomChecks | lib/application.js:164-172 | Validation order is name, then flags, before anything runs. The command is `helm <name> ${flags}` with the flags value rendered unserialized. |
| Application.CustomInterpolatesFlags | lib/application.js:169 | Flag strings reach the command line comma-joined, and absent flags as the word "undefined". |

## Left out

- The subprocess call (`execSync`, its `stdio` piping and `Buffer.toString`) is not modelled. The `helm` executable is a parameter giving stdout or a failure with an optional stderr for each command line. Spawn errors and signals are failures like any other. The binary is a function of the command line: state that helm itself keeps between calls (installed releases, repositories), which can make the same command answer differently later, is not modelled.
- `JSON.parse` is not modelled. A JSON result carries the output text under the tag `Json`, so a malformed output that would make it throw is not modelled.
- Helper.Validate: requires its parameters not to be `null`. For `null`, `typeof` is 'object', the first check passes, and the `hasOwnProperty` call then throws a TypeError rather than a library error. Every caller in both facades passes an object literal.
- Helper.CheckFields: looks only at own properties and visits keys in schema order. Inherited enumerable keys in `for...in` and the reordering of integer-like keys are not modelled: no schema has such keys.
- Helm.List: takes its flags as an array or as omitted. A non-array argument, which makes `push` throw a TypeError, is not modelled.
- Schemas.Lookup: answers for own property names only. Names inherited from `Object.prototype` (`toString`, `constructor`, `__proto__`) would give a function or an object rather than `undefined`; no facade looks such a name up.
- Numbers are integers. NaN, infinities, fractions and exponent notation are left out, and so are `typeof` results 'function', 'symbol' and 'bigint'.
- Shell quoting and injection are not modelled: the command line is the string `buildCommand` returns, and its interpretation belongs to the shell.
- The `try { … } catch (error) { throw error; }` wrappers in every facade method rethrow unchanged, so they have nothing to model.
- Application's `buildCommand` and `exec` are textually identical to `Helm`'s and are modelled once, by `Helm.BuildCommand` and `Helm.Exec`.

# PHP runtime for AWS Lambda: script resolution and the PHP-FPM supervisor

This project is a Dafny model of two parts of a PHP runtime for AWS Lambda:

- the request handlers, which decide which PHP script serves an HTTP invocation;
- the supervisor, which runs the PHP-FPM worker that executes those scripts.

**Handlers.** There are two.

- `BedrockLambdaEventHandler` serves a Bedrock WordPress layout.
  - It claims an HTTP event only when the layout's marker files exist.
  - The request path is rewritten in two steps:
    1. WordPress admin, login and content URLs are moved into the `wp/` namespace.
    2. A path starting with `wp/` is moved under `web/`.
  - The rewritten path is joined to the application root.
  - If the result is a directory, its `index.php` is used instead.
  - If no such file exists, the request falls back to `web/index.php`.
- `PhpScriptLambdaEventHandler` always runs one fixed script. The script path is the root, one slash, and the script name without its leading slashes.

**Supervisor.** `PhpFpmProcess` starts the worker with a fixed command line. It then polls every 5 ms until the worker's socket appears: at most 1001 polls for a start, 201 for a stop.

If a socket is left over from an earlier worker, `killExistingProcess` runs first:

- without a PID file, only the socket is removed;
- otherwise the PID is read from the PID file with PHP's `(int)` cast;
- the guard at `src/FastCgi/PhpFpmProcess.php:140` skips every PID that is 0 or more, and every PID whose process group is not found: both files are then removed and no signal is sent;
- only a negative PID whose process group is found is sent SIGTERM. The supervisor then waits for that group to disappear and removes both files, or throws the stop timeout and leaves them in place.

So a PID as PHP-FPM writes it, a positive decimal number, is never signalled (see "## Findings").

Stopping the supervisor stops the worker.

**Modules and files.**

| file | module | role |
|---|---|---|
| `php_strings.dfy` | `PhpStrings` | The PHP built-ins the code relies on: `ltrim`/`rtrim`, leftmost-match search, `stripos`, `empty()`, and the `(int)` cast of a string with its decimal partner. |
| `lambda_environment.dfy` | `LambdaEnvironment` | Invocation events, and the file system as the two answers `file_exists` and `is_dir`. |
| `bedrock_handler.dfy` | `BedrockLambdaEventHandler` | Pure functions for `canHandle`, `getEventFilePath` and `getScriptFilePath`. Lemmas for each rewrite rule, and for the request paths and layouts of the unit tests with names and roots left open. |
| `php_script_handler.dfy` | `PhpScriptLambdaEventHandler` | Pure functions of the root and the script name. |
| `php_fpm_process.dfy` | `FastCgi` | A class `Os` holding the files and process the supervisor touches. A class `PhpFpmProcess` whose methods change them. Each method is proved equal to a pure step function, and the lemmas are stated about those functions. |

**How the operating system is modelled.**

- The `Os` object holds the state:
  - whether the socket and the PID file exist, and what the PID file holds;
  - whether the socket's directory exists;
  - whether the worker is running;
  - an ordered log of every effect: unlink, mkdir, spawn, signal, stop.
- Its answers are fixed when it is created. They cover:
  - `posix_getpgid` and `posix_kill`;
  - `posix_getpgid` at each poll of the stop wait;
  - `isRunning()` and the socket check at each poll of the start wait.
- `usleep` becomes a poll counter with `elapsed == 5000 * sleeps`.
- An exception becomes an `Outcome` of `Failed(message)`.

**Behaviour worth knowing.** The model follows the code in each case.

- **The script extension.** `PhpScriptLambdaEventHandler::canHandle` does not test for a `.php` suffix. It looks for `.php` anywhere in the joined path, in any letter case, and that includes the root directory's name (`ExtensionAnywhereInName`, `ExtensionInRootDirectory`).
- **The PID guard** and **the subdirectory login** behave differently from what the code's comment and tests call for. Both are listed under "## Findings", each with a corrected definition beside the one that models the code.

## Model

| member | source | states |
|---|---|---|
| PhpStrings.LeftTrim | src/Lambda/Handler/BedrockLambdaEventHandler.php:44-51 | `ltrim($s, $c)` returns a suffix of `s`: every character dropped is `c`, and the result does not start with `c`. |
| PhpStrings.LeftTrimCons | src/Lambda/Handler/PhpScriptLambdaEventHandler.php:39 | One more leading mask character does not change what `ltrim` returns. |
| PhpStrings.LeftTrimNoop | src/Lambda/Handler/BedrockLambdaEventHandler.php:51 | `ltrim` leaves a string alone when it does not start with the mask character. |
| PhpStrings.RightTrim | src/Lambda/Handler/BedrockLambdaEventHandler.php:62 | `rtrim($s, $c)` returns a prefix of `s`: every character dropped is `c`, and the result does not end with `c`. |
| PhpStrings.FirstIndex | src/Lambda/Handler/BedrockLambdaEventHandler.php:42 | The leftmost position in the range where the condition holds (as an unanchored search reports it), or NotFound exactly when it holds nowhere in the range. |
| PhpStrings.ToLowerAscii | src/Lambda/Handler/BedrockLambdaEventHandler.php:47 | ASCII folding: upper-case letters move 32 code points down to lower case; every other character is unchanged. |
| PhpStrings.IndexOfIgnoreCase | src/Lambda/Handler/BedrockLambdaEventHandler.php:47 | `stripos` gives the first position where the needle occurs up to ASCII case, with no occurrence before it, or NotFound exactly when there is no occurrence. |
| PhpStrings.IndexOfIgnoreCaseAtZero | src/Lambda/Handler/BedrockLambdaEventHandler.php:47 | `0 === stripos($s, $p)` holds if and only if `s` starts with `p` up to ASCII case. |
| PhpStrings.IndexOfIgnoreCaseFindsInfix | src/Lambda/Handler/PhpScriptLambdaEventHandler.php:48 | A needle that stands in the haystack is found there or earlier. |
| PhpStrings.Clamp64 | src/FastCgi/PhpFpmProcess.php:138 | A finite value outside the 64-bit range saturates at the bounds, as `zend_dval_to_lval_cap` does. A value in range is kept, and the sign is preserved. |
| PhpStrings.IntOfNumericValueInRange | src/FastCgi/PhpFpmProcess.php:138 | A value in the 64-bit range is what the cast gives for it, neither clamped nor sent to 0. |
| PhpStrings.IntCast | src/FastCgi/PhpFpmProcess.php:138 | The `(int)` cast always gives a 64-bit integer. What it gives for each form of string is stated by the lemmas below. |
| PhpStrings.NonNumericCastsToZero | src/FastCgi/PhpFpmProcess.php:138 | Contents that, after leading white space, start with neither a digit nor a sign followed by a digit cast to 0. |
| PhpStrings.NegativeCastNeedsMinus | src/FastCgi/PhpFpmProcess.php:138 | `(int)` gives a negative number only for a minus sign followed by a digit, after leading white space. |
| PhpStrings.NatToDecimal | src/FastCgi/PhpFpmProcess.php:138 | Writing a natural number in decimal gives a non-empty string of digits. |
| PhpStrings.DecimalValueOfNatToDecimal | src/FastCgi/PhpFpmProcess.php:138 | The digits written for `n` read back as `n`. |
| PhpStrings.IntCastOfUnsigned | src/FastCgi/PhpFpmProcess.php:138 | A string starting with a digit casts to what PHP makes of its leading digit run: the value itself in the 64-bit range, 0 beyond the range of a double, the nearer bound in between. |
| PhpStrings.IntCastOfMinus | src/FastCgi/PhpFpmProcess.php:138 | A minus sign followed by `u` casts to what PHP makes of the negated digit run that starts `u`, by the same three ranges. |
| PhpStrings.IntCastOfDigits | src/FastCgi/PhpFpmProcess.php:138 | A digit run followed by a non-digit casts to what PHP makes of the value of that run, by the same three ranges. |
| PhpStrings.InfiniteCastsToZero | src/FastCgi/PhpFpmProcess.php:138 | A digit run too long for a double (2^1024 - 2^970 or more, about 309 digits) casts to 0, with or without a minus sign, because the double is infinite. |
| PhpStrings.IntCastOfNatToDecimal | src/FastCgi/PhpFpmProcess.php:138 | A natural number up to the 64-bit maximum, written in decimal and followed by a non-digit, casts back to itself. |
| PhpStrings.IntCastOfMinusNatToDecimal | src/FastCgi/PhpFpmProcess.php:138 | A minus sign and a natural number up to 2^63 in decimal, followed by a non-digit, cast to the negated number. |
| PhpStrings.IntCastOfIntToString | src/FastCgi/PhpFpmProcess.php:138 | Round trip: a 64-bit integer written in decimal, followed by anything that does not start with a digit (such as a newline), casts back to that integer. |
| LambdaEnvironment.DirectoriesExist | src/Lambda/Handler/BedrockLambdaEventHandler.php:61-65 | `file_exists` is true for every directory. |
| BedrockLambdaEventHandler.CanHandle | src/Lambda/Handler/BedrockLambdaEventHandler.php:27-32 | False for every non-HTTP event, whatever the files. For an HTTP event, true if and only if the Bedrock autoloader exists, or `web/app/` is a directory and both configuration files exist. |
| BedrockLambdaEventHandler.CanHandleIgnoresPath | src/Lambda/Handler/BedrockLambdaEventHandler.php:27-32 | Whether an HTTP event is claimed does not depend on its request path. |
| BedrockLambdaEventHandler.CanHandleMonotone | src/Lambda/Handler/BedrockLambdaEventHandler.php:30-31 | Adding files or directories never makes the handler drop an event it claimed. |
| BedrockLambdaEventHandler.MatchesLoginPattern | src/Lambda/Handler/BedrockLambdaEventHandler.php:42 | The login half of the pattern test. Its meaning, the language of `^\/(wp-.*.php)$`, is stated by `LoginPatternIsRegex`. |
| BedrockLambdaEventHandler.LoginPatternIsRegex | src/Lambda/Handler/BedrockLambdaEventHandler.php:42 | The login predicate holds exactly for the paths `/wp-` + any string + one character + `php`, in both directions. These are the strings in the language of `^\/(wp-.*.php)$` for a path without newlines. |
| BedrockLambdaEventHandler.AdminSegmentMatch | src/Lambda/Handler/BedrockLambdaEventHandler.php:42 | The match of the admin pattern is at the leftmost position where one of the three segments stands, and is absent exactly when none stands anywhere. |
| BedrockLambdaEventHandler.AdminSegmentShape | src/Lambda/Handler/BedrockLambdaEventHandler.php:42 | Where an admin segment matches, `/wp-` stands there, followed by one of `c`, `a`, `i`. |
| BedrockLambdaEventHandler.JoinRewritten | src/Lambda/Handler/BedrockLambdaEventHandler.php:44-51 | A captured group starting with `w` is prefixed with `wp/`, remapped under `web/`, and joined to give `root/web/wp/` + group. |
| BedrockLambdaEventHandler.RewriteWordPressPath | src/Lambda/Handler/BedrockLambdaEventHandler.php:42-45 | The first rewrite step. What it gives for each pattern is stated, joined to the root, by `EventFilePathCases` and the four rule lemmas. |
| BedrockLambdaEventHandler.RemapWpDirectory | src/Lambda/Handler/BedrockLambdaEventHandler.php:47-49 | The `wp/` remap. Its effect is stated by `JoinRewritten`, `RemapRule` and `RawWpDirectoryNotRemapped`. |
| BedrockLambdaEventHandler.EventFilePath | src/Lambda/Handler/BedrockLambdaEventHandler.php:37-52 | `getEventFilePath`. Its result is stated rule by rule by `EventFilePathCases`, and its shape by `EventFilePathJoin`. |
| BedrockLambdaEventHandler.EventFilePathCases | src/Lambda/Handler/BedrockLambdaEventHandler.php:37-52 | The four rules cover every path. A login match resolves to `root/web/wp/` + the path without its first slash. Otherwise the leftmost admin segment resolves to `root/web/wp/` + the path from there. A path matches neither pattern exactly when both searches fail, and then resolves to `root/web/` + path when it starts with `wp/` in any case, else to the root, a slash and the path without its leading slashes. |
| BedrockLambdaEventHandler.LoginRule | src/Lambda/Handler/BedrockLambdaEventHandler.php:42-51 | A path matching the login pattern resolves to `root/web/wp/` followed by the path without its first slash. |
| BedrockLambdaEventHandler.AdminRule | src/Lambda/Handler/BedrockLambdaEventHandler.php:42-51 | When the login pattern fails, everything before the leftmost `/wp-content`, `/wp-admin` or `/wp-includes` is dropped, and the path resolves to `root/web/wp/` followed by that segment and the rest. |
| BedrockLambdaEventHandler.RemapRule | src/Lambda/Handler/BedrockLambdaEventHandler.php:47-49 | A path that neither pattern matches and that starts with `wp/` in any letter case resolves to `root/web/` + path. |
| BedrockLambdaEventHandler.PlainRule | src/Lambda/Handler/BedrockLambdaEventHandler.php:51 | Any other path resolves to the root, a slash, and the path with its leading slashes stripped. |
| BedrockLambdaEventHandler.RawWpDirectoryNotRemapped | src/Lambda/Handler/BedrockLambdaEventHandler.php:47-51 | A leading slash defeats the `wp/` test, so `/wp/…` without an admin segment resolves to `root/wp/…` and not under `web/`. |
| BedrockLambdaEventHandler.LeftTrimOneSlash | src/Lambda/Handler/BedrockLambdaEventHandler.php:51 | `ltrim` removes exactly one slash from a path with a single leading slash. |
| BedrockLambdaEventHandler.EventFilePathJoin | src/Lambda/Handler/BedrockLambdaEventHandler.php:51 | The event file path is always the root, one slash, and a rest that does not start with a slash, so the join never doubles the slash. |
| BedrockLambdaEventHandler.ScriptFilePath | src/Lambda/Handler/BedrockLambdaEventHandler.php:57-66 | The script is an existing file or exactly `root/web/index.php`. A directory with an `index.php` gives that index, with trailing slashes trimmed before `/index.php` is added. An existing non-directory gives itself. No other result is possible. |
| BedrockLambdaEventHandler.MissingScriptFallsBack | src/Lambda/Handler/BedrockLambdaEventHandler.php:59-65 | A directory without `index.php`, or a missing file, falls back to `root/web/index.php`. |
| BedrockLambdaEventHandler.CanHandleWithBothConfigs | tests/Unit/Lambda/Handler/BedrockLambdaEventHandlerTest.php:80-91 | Under any root, the event is claimed when `web/app/`, `config/application.php` and `web/wp-config.php` are present. |
| BedrockLambdaEventHandler.CanHandleWithAutoloader | tests/Unit/Lambda/Handler/BedrockLambdaEventHandlerTest.php:93-104 | The event is claimed when only the Bedrock autoloader is present. |
| BedrockLambdaEventHandler.CannotHandleWithoutApplicationConfig | tests/Unit/Lambda/Handler/BedrockLambdaEventHandlerTest.php:106-115 | The event is not claimed when `config/application.php` is missing and there is no autoloader. |
| BedrockLambdaEventHandler.CannotHandleWithoutWpConfig | tests/Unit/Lambda/Handler/BedrockLambdaEventHandlerTest.php:117-126 | The event is not claimed when `web/wp-config.php` is missing and there is no autoloader. |
| BedrockLambdaEventHandler.CannotHandleWithoutLayoutFiles | tests/Unit/Lambda/Handler/BedrockLambdaEventHandlerTest.php:128-133 | The event is not claimed when no layout file is present, whatever directories exist. |
| BedrockLambdaEventHandler.LoginScriptRewritten | tests/Unit/Lambda/Handler/BedrockLambdaEventHandlerTest.php:295-319 | A request `/wp-<name>php`, such as `/wp-login.php`, resolves to `root/web/wp/wp-<name>php`. |
| BedrockLambdaEventHandler.AdminAtRootRewritten | tests/Unit/Lambda/Handler/BedrockLambdaEventHandlerTest.php:241-265 | A request `/wp-admin` + rest, such as `/wp-admin/`, resolves to `root/web/wp/wp-admin` + rest. |
| BedrockLambdaEventHandler.NoPatternInSite | src/Lambda/Handler/BedrockLambdaEventHandler.php:42-47 | For `/<site>/…`, where the site has no slash and does not itself begin with `wp-`: the login pattern, the `wp/` prefix and every admin segment starting inside the site all fail. |
| BedrockLambdaEventHandler.SubdirectoryAdminRewritten | tests/Unit/Lambda/Handler/BedrockLambdaEventHandlerTest.php:267-293 | A subdirectory-multisite request `/<site>/wp-admin` + rest drops the site and resolves to `root/web/wp/wp-admin` + rest. |
| BedrockLambdaEventHandler.NoAdminSegmentInLogin | src/Lambda/Handler/BedrockLambdaEventHandler.php:42 | Nothing after the site name in `/<site>/wp-login.php` matches an admin segment. |
| BedrockLambdaEventHandler.SubdirectoryLoginNotRewritten | src/Lambda/Handler/BedrockLambdaEventHandler.php:42-51 | A subdirectory-multisite login `/<site>/wp-login.php` matches neither pattern and resolves to `root/<site>/wp-login.php`, not under `web/wp/`. |
| BedrockLambdaEventHandler.SubdirectoryLoginFallsBack | src/Lambda/Handler/BedrockLambdaEventHandler.php:42-65 | With no `<site>/wp-login.php` file under the root, that login is served by `root/web/index.php`. |
| BedrockLambdaEventHandler.SubdirectoryIsSiteName | tests/Unit/Lambda/Handler/BedrockLambdaEventHandlerTest.php:267-293 | The tests' site name `subdirectory` meets the conditions of the subdirectory lemmas. |
| BedrockLambdaEventHandler.LoginSegmentAtStart | src/Lambda/Handler/BedrockLambdaEventHandler.php:42 | At the first character, the unanchored login pattern of the corrected rule matches exactly when the anchored one does. |
| BedrockLambdaEventHandler.IntendedLoginMatch | src/Lambda/Handler/BedrockLambdaEventHandler.php:42 | Corrected rule: the unanchored login pattern `\/(wp-.*.php)$` matches at the leftmost position where `/wp-` stands and the path ends in `php` at least one character later, and is absent exactly when that holds nowhere. |
| BedrockLambdaEventHandler.IntendedEventFilePath | src/Lambda/Handler/BedrockLambdaEventHandler.php:37-52 | `getEventFilePath` with the corrected login pattern. Its properties are stated by the two lemmas below. |
| BedrockLambdaEventHandler.IntendedAgreesWithoutLaterLogin | src/Lambda/Handler/BedrockLambdaEventHandler.php:42-51 | The corrected rule gives the same file as the code for every path with no `/wp-…php` ending that starts after the first character. |
| BedrockLambdaEventHandler.NoLoginSegmentInSite | src/Lambda/Handler/BedrockLambdaEventHandler.php:42 | In `/<site>/wp-login.php` the unanchored login pattern cannot start inside the site part. |
| BedrockLambdaEventHandler.IntendedSubdirectoryLoginRewritten | tests/Unit/Lambda/Handler/BedrockLambdaEventHandlerTest.php:321-347 | With the corrected rule, the subdirectory multisite login `/<site>/wp-login.php` resolves to `root/web/wp/wp-login.php`, as the test expects. |
| PhpScriptLambdaEventHandler.ScriptFilePath | src/Lambda/Handler/PhpScriptLambdaEventHandler.php:35-40 | The stored path is the root, one slash, and the script name with all its leading slashes removed and nothing else changed. |
| PhpScriptLambdaEventHandler.ScriptFilePathIgnoresLeadingSlash | src/Lambda/Handler/PhpScriptLambdaEventHandler.php:39 | A script name written with or without a leading slash names the same script. |
| PhpScriptLambdaEventHandler.ScriptFilePathOfRelativeName | src/Lambda/Handler/PhpScriptLambdaEventHandler.php:39 | A relative script name is appended to `root/` unchanged. |
| PhpScriptLambdaEventHandler.CanHandle | src/Lambda/Handler/PhpScriptLambdaEventHandler.php:45-50 | `canHandle`. Its meaning, in both directions, is stated by `CanHandleMeaning`. |
| PhpScriptLambdaEventHandler.CanHandleMeaning | src/Lambda/Handler/PhpScriptLambdaEventHandler.php:45-50 | An event is claimed if and only if it is an HTTP event, `.php` occurs somewhere in the stored path in any letter case, and that file exists. |
| PhpScriptLambdaEventHandler.GetScriptFilePath | src/Lambda/Handler/PhpScriptLambdaEventHandler.php:55-58 | The script run is a path under `root/`. |
| PhpScriptLambdaEventHandler.GetScriptFilePathIgnoresRequest | src/Lambda/Handler/PhpScriptLambdaEventHandler.php:55-58 | Every request runs the same stored path, whatever its request path. |
| PhpScriptLambdaEventHandler.ClaimedScriptExists | src/Lambda/Handler/PhpScriptLambdaEventHandler.php:45-58 | A claimed request runs a file that exists. |
| PhpScriptLambdaEventHandler.ExtensionAnywhereInName | src/Lambda/Handler/PhpScriptLambdaEventHandler.php:48 | The test is not for a suffix: an existing `<name>.php<tail>`, such as `index.php.bak`, is claimed. |
| PhpScriptLambdaEventHandler.ExtensionInRootDirectory | src/Lambda/Handler/PhpScriptLambdaEventHandler.php:48 | `.php` in the root directory's name is enough for any existing script below it to be claimed. |
| PhpScriptLambdaEventHandler.NoExtensionNotClaimed | src/Lambda/Handler/PhpScriptLambdaEventHandler.php:48 | A path without `.php` in any letter case is never claimed, even when the file exists. |
| PhpScriptLambdaEventHandler.OtherEventsNotClaimed | src/Lambda/Handler/PhpScriptLambdaEventHandler.php:47 | Non-HTTP events are never claimed. |
| FastCgi.FpmCommand | src/FastCgi/PhpFpmProcess.php:84 | The worker's command line has five words: `php-fpm`, the two flags, then `--fpm-config` and the configuration path. |
| FastCgi.ConfigPathRoundTrip | src/FastCgi/PhpFpmProcess.php:80-86 | The configuration path can be read back from the command line built from it. |
| FastCgi.FpmCommandInjective | src/FastCgi/PhpFpmProcess.php:84 | Different configuration paths give different command lines. |
| FastCgi.MaxSleeps | src/FastCgi/PhpFpmProcess.php:198-205 | At least one sleep, and enough sleeps of 5000 µs that the time slept exceeds the timeout. |
| FastCgi.TimeoutBounds | src/FastCgi/PhpFpmProcess.php:122 | The start wait allows 1001 evaluations and the stop wait 201 (lines 122 and 156). |
| FastCgi.RoomForAnotherPoll | src/FastCgi/PhpFpmProcess.php:201-203 | While `elapsed <= timeout` after `k + 1` sleeps, another evaluation is within the bound. |
| FastCgi.TimeoutAtBound | src/FastCgi/PhpFpmProcess.php:201-205 | The wait throws its timeout exactly at the bound. |
| FastCgi.WaitFrom | src/FastCgi/PhpFpmProcess.php:193-207 | The specification of `wait` from a given evaluation. Its properties are stated by the `WaitFrom` and `Wait` lemmas below. |
| FastCgi.WaitFromFacts | src/FastCgi/PhpFpmProcess.php:193-207 | Every evaluation before the last was true. A normal return follows a false evaluation and a callback exception follows a throwing one, both within the bound. A timeout throws the given message after exactly the bound's number of sleeps, with the last evaluation true. |
| FastCgi.WaitFromStopsAt | src/FastCgi/PhpFpmProcess.php:198 | The first evaluation that is not true ends the wait there, with that result. |
| FastCgi.WaitFromTimesOut | src/FastCgi/PhpFpmProcess.php:203-205 | A condition true at every evaluation the bound allows times out with the given message after the last one. |
| FastCgi.WaitCompletesIff | src/FastCgi/PhpFpmProcess.php:193-207 | `wait` returns normally if and only if some evaluation within the bound is false and every earlier one is true. |
| FastCgi.WaitWithoutExceptionsCompletesIff | src/FastCgi/PhpFpmProcess.php:193-207 | For a condition that never throws, `wait` returns normally if and only if some evaluation within the bound is false. |
| FastCgi.WaitReturnsAtOnce | src/FastCgi/PhpFpmProcess.php:195-198 | A condition false at its first evaluation returns at once, with no sleep. |
| FastCgi.StopWaitOutcome | src/FastCgi/PhpFpmProcess.php:154-156 | The stop wait's condition never throws, so the wait fails only by timing out, with the stop timeout message. |
| FastCgi.StopWaitFailsIff | src/FastCgi/PhpFpmProcess.php:154-156 | The stop wait fails if and only if the process group is still found at each of its 201 evaluations. |
| FastCgi.StartProbeValues | src/FastCgi/PhpFpmProcess.php:116-121 | The start condition throws `failed to start` exactly when the process is not running. Otherwise it is false exactly when the socket is there. |
| FastCgi.StartWaitOutcome | src/FastCgi/PhpFpmProcess.php:116-122 | After the start wait, the last poll determines the outcome. A normal return means the process was running with its socket. `failed to start` means it was not running. A timeout means it was running without its socket. |
| FastCgi.StartWaitSucceedsIff | src/FastCgi/PhpFpmProcess.php:116-122 | The start wait returns normally if and only if, at some poll within 1001, the process runs with its socket there, and at every earlier poll it ran without it. |
| FastCgi.RemoveFiles | src/FastCgi/PhpFpmProcess.php:174-178 | `removeProcessFiles` on the state. Its properties are stated by `RemoveFilesFacts`. |
| FastCgi.KillBranchOf | src/FastCgi/PhpFpmProcess.php:128-148 | The branch `killExistingProcess` takes. Which branch signals is stated by `SignallingBranch` and `SignalOnlyToNegativePid`. |
| FastCgi.KillStep | src/FastCgi/PhpFpmProcess.php:128-159 | The specification of `killExistingProcess`. Its frame, outcome and effects are stated by `KillFrame`, `KillOutcome`, `KillTimesOutIff` and the PID-file lemmas. |
| FastCgi.KillInFrame | src/FastCgi/PhpFpmProcess.php:128-159 | In every branch, the kill changes only the socket and PID file flags and appends exactly that branch's effect log. |
| FastCgi.KillInOutcome | src/FastCgi/PhpFpmProcess.php:128-159 | In every branch, a normal return leaves the socket removed, and the PID file too unless there was none. A failure happens only after a delivered signal whose wait failed, and it leaves both files as they were. |
| FastCgi.KillLogShape | src/FastCgi/PhpFpmProcess.php:128-159 | The kill's effects are unlinks and signals only, with at most one signal, which comes first and is SIGTERM to the branch's PID. |
| FastCgi.KillFrame | src/FastCgi/PhpFpmProcess.php:128-159 | `killExistingProcess` changes only the two file flags and appends exactly its log. |
| FastCgi.KillOutcome | src/FastCgi/PhpFpmProcess.php:128-159 | `killExistingProcess` returns normally with both files gone, or throws the stop timeout with both files left in place. |
| FastCgi.KillTimesOutIff | src/FastCgi/PhpFpmProcess.php:146-156 | `killExistingProcess` throws if and only if its signal was delivered and the process group was still found at each of the 201 evaluations. |
| FastCgi.SignallingBranch | src/FastCgi/PhpFpmProcess.php:138-148 | A signal is sent only when the PID file exists and its cast is a negative PID whose process group is found. The signal counts as delivered exactly when `posix_kill` succeeds. |
| FastCgi.SignalOnlyToNegativePid | src/FastCgi/PhpFpmProcess.php:138-146 | A signal can only be the kill's first effect. It is SIGTERM to the cast of the PID file's contents, only when that is negative (the contents start with a minus sign and a digit) and its process group was found. |
| FastCgi.WrittenPidNeverSignalled | src/FastCgi/PhpFpmProcess.php:138-144 | A PID file holding a process id written in decimal with a newline is removed together with the socket, with no signal and a normal return. |
| FastCgi.NonNumericPidNeverSignalled | src/FastCgi/PhpFpmProcess.php:138-144 | Non-numeric contents cast to PID 0, which is never signalled: both files are removed and the call returns normally. |
| FastCgi.NoPidFileUnlinksSocketOnly | src/FastCgi/PhpFpmProcess.php:132-136 | Without a PID file, only the socket is unlinked, no signal is sent, and the call returns normally. |
| FastCgi.OverflowingPidNeverSignalled | src/FastCgi/PhpFpmProcess.php:138-144 | A PID file holding a minus sign and a digit run too long for a double casts to PID 0: both files are removed, no signal is sent, and the call returns normally. |
| FastCgi.IntendedKillBranchOf | src/FastCgi/PhpFpmProcess.php:126-148 | Corrected guard `$pid <= 0`. Its properties are stated by the three lemmas below. |
| FastCgi.IntendedKillStep | src/FastCgi/PhpFpmProcess.php:126-159 | `killExistingProcess` with the corrected guard. |
| FastCgi.IntendedKillSignalsWrittenPid | src/FastCgi/PhpFpmProcess.php:126-148 | With the corrected guard, a PID file holding a positive process id, as PHP-FPM writes it, whose group is found, is sent SIGTERM as the first effect of the kill. The signal is delivered or refused as `posix_kill` answers. |
| FastCgi.IntendedKillSignalsOnlyPositive | src/FastCgi/PhpFpmProcess.php:140-146 | With the corrected guard, a signal goes only to the positive cast of an existing PID file whose process group was found. |
| FastCgi.GuardsNeverSignalTheSamePid | src/FastCgi/PhpFpmProcess.php:140 | Whenever the guard as written signals, the corrected one does not: the two signal disjoint sets of PIDs. |
| FastCgi.LaunchReady | src/FastCgi/PhpFpmProcess.php:105-122 | After the spawn, `start` returns normally only with the process running, its socket there, and the socket directory present. |
| FastCgi.LaunchSucceedsIff | src/FastCgi/PhpFpmProcess.php:111-122 | After the spawn, `start` returns normally if and only if some poll within 1001 sees the process running with its socket, and every earlier poll saw it running without. |
| FastCgi.LaunchFailsWhenProcessDies | src/FastCgi/PhpFpmProcess.php:116-119 | A process found not running fails the start with `failed to start` even when its socket is there, because the running check comes first. |
| FastCgi.LaunchTimesOut | src/FastCgi/PhpFpmProcess.php:116-122 | A process that runs without a socket at every poll times out with the start timeout message. |
| FastCgi.StartReady | src/FastCgi/PhpFpmProcess.php:99-123 | A normal return from `start` leaves the worker running with its socket and socket directory present. |
| FastCgi.StartFailures | src/FastCgi/PhpFpmProcess.php:99-123 | The only exceptions `start` throws are `failed to start`, the start timeout and the kill's stop timeout. |
| FastCgi.StartEffects | src/FastCgi/PhpFpmProcess.php:99-114 | The order of `start`'s effects: first the kill's log, only when a socket existed on entry. Then, unless the kill threw, the `mkdir` of the socket directory when it was missing, and then the spawn. |
| FastCgi.StartSpawnsIff | src/FastCgi/PhpFpmProcess.php:99-114 | `start` spawns the worker if and only if there was no socket on entry or the kill returned normally. |
| FastCgi.LaunchStep | src/FastCgi/PhpFpmProcess.php:105-122 | The part of `start` after the kill. Its properties are stated by the `Launch` lemmas above. |
| FastCgi.StartStep | src/FastCgi/PhpFpmProcess.php:99-123 | The specification of `start`. Its properties are stated by `StartReady`, `StartFailures`, `StartEffects` and `StartSpawnsIff`. |
| FastCgi.StepsKeepWellFormed | src/FastCgi/PhpFpmProcess.php:99-188 | Every step keeps the socket inside an existing socket directory. |
| FastCgi.StopFacts | src/FastCgi/PhpFpmProcess.php:183-188 | After `stop`, no process is running. A second `stop` changes nothing. The process is stopped, and that logged, exactly when it was running, and nothing else changes. |
| FastCgi.StopStep | src/FastCgi/PhpFpmProcess.php:183-188 | The specification of `stop`. Its properties are stated by `StopFacts`. |
| FastCgi.RemoveFilesFacts | src/FastCgi/PhpFpmProcess.php:174-178 | `removeProcessFiles` removes both files, and repeating it does not change the files again. |
| FastCgi.Os.constructor | src/FastCgi/PhpFpmProcess.php:63-67 | The system starts in the given state with the given answers. |
| FastCgi.Os.UnlinkSocket | src/FastCgi/PhpFpmProcess.php:133 | `unlink` of the socket clears its flag and logs the unlink. Nothing else changes. |
| FastCgi.Os.UnlinkPidFile | src/FastCgi/PhpFpmProcess.php:177 | `unlink` of the PID file clears its flag and logs the unlink. Nothing else changes. |
| FastCgi.Os.MakeSocketDirectory | src/FastCgi/PhpFpmProcess.php:105-107 | `mkdir` creates the socket's directory and logs it. |
| FastCgi.Os.SendSignal | src/FastCgi/PhpFpmProcess.php:146 | `posix_kill` logs the signal and reports the system's answer for that PID. |
| FastCgi.Os.Spawn | src/FastCgi/PhpFpmProcess.php:112-114 | Starting the process logs the spawn of the command line. |
| FastCgi.Os.ObserveStartPoll | src/FastCgi/PhpFpmProcess.php:116-121 | The process and socket flags become what the start wait's last poll saw. |
| FastCgi.Os.StopProcess | src/FastCgi/PhpFpmProcess.php:186 | `Process::stop` leaves the process stopped and logs it. |
| FastCgi.PhpFpmProcess.constructor | src/FastCgi/PhpFpmProcess.php:63-67 | The supervisor keeps the system and the command line it is given. |
| FastCgi.PhpFpmProcess.CreateForConfig | src/FastCgi/PhpFpmProcess.php:80-86 | A new supervisor whose command line names the given configuration path, which defaults to the default configuration file. |
| FastCgi.PhpFpmProcess.IsStarted | src/FastCgi/PhpFpmProcess.php:164-169 | The worker counts as started exactly when its socket file exists. |
| FastCgi.PhpFpmProcess.RemoveProcessFiles | src/FastCgi/PhpFpmProcess.php:174-178 | The new state is the old one with the socket and the PID file unlinked, in that order. |
| FastCgi.PhpFpmProcess.Wait | src/FastCgi/PhpFpmProcess.php:193-207 | The polling loop returns exactly the result of the wait specification, so every `WaitFrom` lemma above holds of it. |
| FastCgi.PhpFpmProcess.KillExistingProcess | src/FastCgi/PhpFpmProcess.php:128-159 | The new state and the outcome are those of the kill step, so the kill lemmas above hold of it. |
| FastCgi.PhpFpmProcess.Start | src/FastCgi/PhpFpmProcess.php:99-123 | The new state and the outcome are those of the start step, so the start lemmas above hold of it. |
| FastCgi.PhpFpmProcess.Stop | src/FastCgi/PhpFpmProcess.php:183-188 | The new state is that of the stop step: stopped when running, unchanged otherwise. |
| FastCgi.PhpFpmProcess.Destroy | src/FastCgi/PhpFpmProcess.php:72-75 | Destroying the supervisor always performs `stop`. |

## Left out

- `PhpFpmProcess::handle` and the FastCGI client (`src/FastCgi/PhpFpmProcess.php:91-94`, and the client argument of the constructor): these delegate to an external FastCGI library that is not part of this model.
- Symfony `Process` internals: `setTimeout(null)` has no effect in the model. The exception `start` throws when the process is already running is not modelled. `isRunning` is an answer of the system.
- Output to stderr (`fwrite`) and `clearstatcache`: these have no effect on the modelled state.
- Real time: `usleep` is a counted sleep of 5000 µs; no clock is modelled.
- PHP-FPM's own creation of its PID file and socket: the socket and process state seen at each poll are answers of the system, fixed when the `Os` object is created, so they do not depend on what the supervisor did.
- `unlink` of a file that does not exist raises a PHP warning: the model only clears the flag and logs the unlink.
- Concurrency: the model is one sequential supervisor.
- PhpStrings.IntCast: PHP's numeric strings with a fractional part or an exponent (`"1e3"`) are not modelled. Only white space, an optional sign and a decimal digit run are read, and anything after them is ignored. A digit run beyond the 64-bit range is taken through a correctly rounded double, so the exact threshold 2^1024 - 2^970 decides between the bound and 0.
- BedrockLambdaEventHandler.MatchesLoginPattern: `.` is taken to match any character, which agrees with PCRE only for paths without a newline.
- The parent handler `AbstractPhpFpmRequestEventHandler` is not part of this model; only its test "is an HTTP request event" is, as `IsHttpRequestEvent`. Left out with it are its `handle` method, the construction of the FastCGI request, and the denylist of sensitive files.
- `WordPressLambdaEventHandler` is not part of this model; only its tests exist.
- `layers.php`, a table of deployment data, and `runtime/runtime.php`, the bootstrap and event loop, are not part of this model.
- File system paths are compared as strings, as PHP passes them to the system. A path with a doubled or trailing slash is a different path.

## Findings

| source | as written | input that shows it | evidently intended | confidence | as-written member | corrected member |
|---|---|---|---|---|---|---|
| src/FastCgi/PhpFpmProcess.php:140 | The guard `0 <= $pid` skips every PID that is 0 or more, so only negative PIDs reach `posix_kill`. | A PID file holding `1234` and a newline, with process group 1234 alive: both files are removed, no SIGTERM is sent, and the old worker keeps running. | Skip only PIDs that are not positive (`$pid <= 0`), so that the existing PHP-FPM process is killed as the comment at line 126 says. | not executed; high | FastCgi.WrittenPidNeverSignalled | FastCgi.IntendedKillSignalsWrittenPid |
| src/Lambda/Handler/BedrockLambdaEventHandler.php:42 | The login pattern `^\/(wp-.*.php)$` is anchored at the start of the path. | `/subdirectory/wp-login.php` resolves to `root/subdirectory/wp-login.php`, and falls back to `web/index.php` when that file is missing. | A subdirectory multisite login runs `web/wp/wp-login.php`, as the test at tests/Unit/Lambda/Handler/BedrockLambdaEventHandlerTest.php:321-347 expects. | not executed; medium | BedrockLambdaEventHandler.SubdirectoryLoginNotRewritten | BedrockLambdaEventHandler.IntendedSubdirectoryLoginRewritten |

The operations of the model (`EventFilePath`, `ScriptFilePath`, `KillStep` and the methods of `PhpFpmProcess`) keep the code as written, because they model what the program does. The corrected definitions `IntendedEventFilePath` and `IntendedKillStep` stand beside them with their properties proved. `IntendedAgreesWithoutLaterLogin` shows that the corrected login rule changes nothing at the root level. `GuardsNeverSignalTheSamePid` shows that the two guards never signal the same PID.

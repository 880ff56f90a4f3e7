# tsurezure request/response plumbing, modelled in Dafny

This project models an early snapshot of tsurezure, a small Ruby HTTP
server library. It covers the sequential code between the socket and the
application handler:

- **Request text** (`HTTPUtils` in lib/utils/http_utils.rb):
  - query-string parameters (`extract_url_params`);
  - route-pattern helpers (`get_match_indices`, `matches_url_regex`);
  - the header loop (`get_headers`) and the body read (`get_req_data`);
  - assembly of the request record (`make_proper_request`, `make_request_object`).
- **The response writer** (`ServerResponse`): it picks a status-line renderer, writes the header lines, a blank line and the body to the client session, and closes the session.
- **Dispatch** (lib/utils/response.rb): an exact `(method, url)` lookup in the endpoint table, the 404 envelope, and the normalisation of the handler's result.
- **Validators and error payloads** (lib/utils/object_utils.rb, lib/utils/errors.rb, lib/utils/error_codes.rb).
- **The request object and the port guards** of lib/tsurezure.rb.

Ruby's dynamic values become `RubyValues.Value`. A hash keyed by arbitrary
values is a `map<Value, Value>`. A payload whose key order matters (the
order `to_json` writes it in) is a sequence of `Field`s. An exception is
the `Raised` case of `Outcome<T>`. The Ruby library behaviour the code
relies on is written out in `RubyStrings`:

- `split` with one separator drops trailing empty fields;
- awk-style `split(' ')` and `split(' ', 2)`;
- `strip` and `chop`;
- `Integer#to_s` and `String#to_i`.

The client socket is a `HeaderUtils.Client` object. It holds the input not
yet consumed; `gets` takes the next line and `read(n)` takes up to `n`
elements. One character of that input stands for one byte read from the
socket. The response session is a `ServerResponses.Session` object that
holds the lines written so far and a `closed` flag.

The model follows the code as written; in particular:

- Routing is an exact hash lookup on `(method, url)`; no pattern takes part.
- A table without a bucket for the request's method raises on `nil[...]` instead of answering 404.
- A nil request raises in `validate_request` (`nil[:method]`) before `ensure_response` could answer 404.
- There are renderers for 200, 400, 404, 405 and 500 only, so 201 and 301 are answered with `400 Bad Request`.
- `Allow` is read from `options['allowed']` (a String key). `r_405` is only reachable when `options[:method]` is set.
- `Content-Length` is the length given to the `ServerResponse` constructor, not the body's length.
- A Hash result from a handler gets the `:options` of the merged endpoint/request hash, so the request's `:options` win over the endpoint's.

## Model

| member | source | states |
|---|---|---|
| RubyStrings.SplitJoin | lib/utils/http_utils.rb:13-15 | `split` gives back the fields that `join` assembled, when no field holds the separator and the last one is not empty |
| RubyStrings.SplitEmptyIff | lib/tsurezure.rb:29 | `split(c)` has no fields exactly when the text is made of `c` only; otherwise its first field is the text before the first `c` |
| RubyStrings.WordsOfRequestLine | lib/utils/http_utils.rb:87-89 | `split(' ')` of `"A B C\r\n"` with space-free words gives exactly `[A, B, C]` |
| RubyStrings.DecimalRoundTrip | lib/utils/http_utils.rb:76 | `to_i` reads back what `Integer#to_s` wrote, so a Content-Length written as `n` means `n` |
| ErrorCodes.NanMessage | lib/utils/error_codes.rb:5-7 | the text is the fixed prefix, then the item, then the fixed suffix, and its length is the sum of the three |
| ErrorCodes.NoMethodMessage | lib/utils/error_codes.rb:9-11 | likewise for `no_method_error`'s prefix and suffix |
| ErrorCodes.InvalidTypeMessage | lib/utils/error_codes.rb:13-15 | likewise for `invalid_type_error`'s prefix and suffix |
| ErrorCodes.RangeMessage | lib/utils/error_codes.rb:17-19 | the text starts with the fixed prefix, ends in `]`, and `, ` follows the first bound's digits |
| ErrorCodes.InvalidStructureMessage | lib/utils/error_codes.rb:21-23 | the text starts with the fixed prefix, ` supplied to ` follows the keys, and it ends with the method name |
| ErrorCodes.NanMessageNamesItem | lib/utils/error_codes.rb:5-7 | the `nan_error` text frames its item between its fixed prefix and suffix, and the item can be read back from it |
| ErrorCodes.NoMethodMessageNamesItem | lib/utils/error_codes.rb:9-11 | likewise for `no_method_error` |
| ErrorCodes.InvalidTypeMessageNamesItem | lib/utils/error_codes.rb:13-15 | likewise for `invalid_type_error` |
| ErrorCodes.RangeMessageNamesBounds | lib/utils/error_codes.rb:17-19 | both bounds of `range_error` are read back as integers from the `[min, max]` text |
| ErrorCodes.InvalidStructureMessageNamesItems | lib/utils/error_codes.rb:21-23 | the keys and the method name of `invalid_structure_error` are each read back from its text |
| ErrorMessage.InvalidKeyError | lib/utils/errors.rb:5-9 | raises an ArgumentError whose payload holds a message and nothing else (no status) |
| ErrorMessage.InvalidHttpMethodError | lib/utils/errors.rb:11-19 | the payload has message, status and options in that order; status is 405 and options is `{allowed: val}` |
| ErrorMessage.MissingArgumentsError | lib/utils/errors.rb:21-26 | the payload is status then message, with status 500 |
| ErrorMessage.MissingParameterError | lib/utils/errors.rb:28-33 | the payload is status then message, with status 400 |
| ErrorMessage.InvalidStructureError | lib/utils/errors.rb:35-40 | the payload is status then message, with status 400 |
| ErrorMessage.MakeHttpError | lib/utils/errors.rb:42-44 | `status` comes first; the `options` key is present iff options is not nil, and then carries it |
| ErrorMessage.FirstDigit | lib/utils/errors.rb:46 | `status.to_s.chr.to_i` is the leading decimal digit of a positive status, and 0 for zero and for a negative status (`'-'.to_i`) |
| ErrorMessage.HttpErrorMessageByLeadingDigit | lib/utils/errors.rb:46-51 | leading digit 4 gives "bad request: " + message, 5 gives "server error: " + message, and any other status has no message key |
| ErrorMessage.HttpErrorMessageByClass | lib/utils/errors.rb:46-51 | for three-digit statuses: 4xx is a bad request, 5xx a server error, and the rest carry no message |
| CustomError.ServerError.constructor | lib/utils/errors.rb:60-64 | the error carries the message it is given |
| CustomError.NewDefaultServerError | lib/utils/errors.rb:61-62 | without an argument the message is "an internal server error occurred." |
| OUtil.CheckParams | lib/utils/object_utils.rb:10-14 | raises the status-400 payload iff params is nil or empty, and passes iff it is non-nil and non-empty |
| OUtil.CheckKey | lib/utils/object_utils.rb:17-21 | passes iff key == value, and otherwise raises the invalid-key error naming the key |
| OUtil.CheckHttpMethod | lib/utils/object_utils.rb:23-27 | passes iff key == value, and otherwise raises status 405 with `allowed: value` |
| OUtil.CheckKeyType | lib/utils/object_utils.rb:29-33 | passes iff `object[key]` is a `type`; a missing key is tested as nil |
| OUtil.AcceptedPrefix | lib/utils/object_utils.rb:38-43 | the loop keeps a prefix of accepted keys and stops at the first key that is not a valid name or whose own class is not the declared one; `to_sym` on a non-string raises |
| OUtil.CheckObjectKeysOutcome | lib/utils/object_utils.rb:35-48 | a pass means at least `valid_keys.length` keys were given and the first `valid_keys.length` of them are all accepted; the only errors are `to_sym` on a non-string and the status-400 structure error listing every key |
| OUtil.CheckObjectKeys | lib/utils/object_utils.rb:35-48 | the loop with `break` over the key bank computes exactly the specified verdict |
| OUtil.AllAcceptedPrefix | lib/utils/object_utils.rb:38-43 | when every key is accepted, the bank holds all of them |
| OUtil.TrailingKeysIgnored | lib/utils/object_utils.rb:38-45 | a full prefix of accepted keys passes, whatever follows the first rejected key |
| OUtil.AllAcceptedPassesIffCount | lib/utils/object_utils.rb:45 | with every key accepted, the check passes iff there are exactly `valid_keys.length` keys |
| OUtil.PermutedKeysSameVerdict | lib/utils/object_utils.rb:38-45 | reordering accepted keys does not change the verdict |
| OUtil.RepeatedKeyStandsIn | lib/utils/object_utils.rb:35-48 | `['a', 'a']` passes against `{a: String, b: String}` although `b` is missing |
| OUtil.KeyTypeNotValueType | lib/utils/object_utils.rb:40 | `['port']` fails against `{port: Integer}`, because the key's own class is tested |
| RubyStrings.SplitAtFirst | lib/utils/http_utils.rb:16 | `split(c)` has two or more fields iff some `c` is followed by a character other than `c`; the first two fields are then the text before the first `c` and the text after it up to the next `c` |
| URLUtils.ParamOfText | lib/utils/http_utils.rb:16-18 | a pair stops the loop iff it has no `=` or only `=`s follow its first `=`; otherwise the key is the text before the first `=` and the value the text after it up to the next `=` |
| URLUtils.ParamsOf | lib/utils/http_utils.rb:15-21 | `break` inside `map` makes the whole result nil iff some pair lacks a value; otherwise there is one parameter per pair, in order |
| URLUtils.ExtractUrlParams | lib/utils/http_utils.rb:10-25 | a URL without `?` has no parameters |
| URLUtils.ExtractUrlParamsQuery | lib/utils/http_utils.rb:10-25 | `[]` without a `?` or with no query text; otherwise the pairs of the text between the first and the second `?` |
| URLUtils.ExtractUrlParamsRoundTrip | lib/utils/http_utils.rb:10-25 | a URL built as `path?k1=v1&k2=v2…` from clean pairs gives exactly those pairs back |
| URLUtils.MissingValueLosesAll | lib/utils/http_utils.rb:15-18 | `/p?a=1&b` gives nil, not the prefix `[a=1]` |
| URLUtils.FlattenTokens | lib/utils/http_utils.rb:28-29 | the scan's tokens (characters and `/:name` variables) concatenate back to the pattern |
| URLUtils.CollapseKeepsColons | lib/utils/http_utils.rb:29-37 | the pattern with each variable collapsed to `:` has at least one colon per variable, so every variable gets an offset |
| URLUtils.Offsets | lib/utils/http_utils.rb:36-38 | the colon offsets are increasing, each holds a colon, and every colon is listed |
| URLUtils.OffsetsCount | lib/utils/http_utils.rb:36-38 | there are as many offsets as colons |
| URLUtils.BindDomain | lib/utils/http_utils.rb:40-42 | the bound names are exactly the variable names, colons removed |
| URLUtils.BindLastWins | lib/utils/http_utils.rb:40-42 | a name's binding comes from its last occurrence |
| URLUtils.MatchIndices | lib/utils/http_utils.rb:27-45 | nil iff the pattern has no `/:name`; otherwise the name of the idx-th variable maps to the path character at the idx-th colon of the collapsed pattern (a literal `:` counts too), or nil past the end |
| URLUtils.GetMatchIndices | lib/utils/http_utils.rb:27-45 | the two scanning loops compute `MatchIndices` |
| URLUtils.ScanOffsets | lib/utils/http_utils.rb:36-38 | the scan loop collects exactly the colon offsets |
| URLUtils.BindEach | lib/utils/http_utils.rb:40-42 | the `each_with_index` loop builds exactly the specified hash |
| URLUtils.UserIdBindsOneCharacter | lib/utils/http_utils.rb:36-41 | `'/user/:id'` against `'/user/42'` gives `{'id' => '4'}` |
| URLUtils.SegmentMatchIndicesBindsSegments | lib/utils/http_utils.rb:27-45 | corrected: each variable segment binds the whole path segment at its position |
| URLUtils.UserIdBindsSegment | lib/utils/http_utils.rb:27-45 | corrected: `'/user/:id'` against `'/user/42'` gives `{'id' => '42'}` |
| URLUtils.LitAtoms | lib/utils/http_utils.rb:49 | the copy of the pattern is a regex of literal characters that covers the pattern |
| URLUtils.ReplaceAll | lib/utils/http_utils.rb:53-55 | `gsub!` of a variable's text by `.+` keeps the text the regex covers, and keeps every `.+` covering something |
| URLUtils.CoveredMatches | lib/utils/http_utils.rb:57 | such a regex matches the text it covers |
| URLUtils.MatchesUrlRegex | lib/utils/http_utils.rb:47-58 | without variables: equality of plain pattern and path; with variables: true for any plain pattern, whatever the path |
| URLUtils.LiteralsMatchThemselves | lib/utils/http_utils.rb:52 | `/^#{regex}$/` with plain `regex` matches a newline-free pattern iff the pattern equals `regex` |
| HeaderUtils.NextLine | lib/utils/http_utils.rb:66 | `gets` is nil iff the input is exhausted, and otherwise the next line including its terminator |
| HeaderUtils.ReadResult | lib/utils/http_utils.rb:76 | `read(n)` raises iff n < 0; gives "" for 0, nil at the end of input, and otherwise the next characters, up to n of them |
| HeaderUtils.Client.Gets | lib/utils/http_utils.rb:66 | returns the next line and consumes it |
| HeaderUtils.Client.Read | lib/utils/http_utils.rb:76 | returns what `read(n)` gives and consumes it |
| HeaderUtils.ReadHeaders | lib/utils/http_utils.rb:63-73 | the header loop keeps the headers read so far and always consumes input |
| HeaderUtils.GetHeaders | lib/utils/http_utils.rb:63-73 | the `while` loop gives the specified headers and leaves the client just after the blank line |
| HeaderUtils.ReadHeaderBlock | lib/utils/http_utils.rb:63-73 | a block of `Name: value` lines then a blank line gives those headers stored in order and leaves the body unread |
| HeaderUtils.SplitHeaderLine | lib/utils/http_utils.rb:66 | `split(' ', 2)` cuts `"Name: value\r\n"` into `"Name:"` and `"value\r\n"` |
| HeaderUtils.ChopColon | lib/utils/http_utils.rb:69 | `chop` removes the colon from the name |
| HeaderUtils.StripLineEnd | lib/utils/http_utils.rb:69 | `strip` removes the line end from the value |
| HeaderUtils.BlankLineFirst | lib/utils/http_utils.rb:67 | a blank first line gives no headers and leaves the rest unread |
| HeaderUtils.UnterminatedBlockRaises | lib/utils/http_utils.rb:66 | input that ends before the blank line raises on `nil.split` |
| HeaderUtils.StoreLastWins | lib/utils/http_utils.rb:69 | a later duplicate header name overwrites an earlier one |
| HeaderUtils.StoreKeeps | lib/utils/http_utils.rb:69 | names that are not repeated keep their value |
| HeaderUtils.ContentLength | lib/utils/http_utils.rb:76 | a missing header reads as 0, and a header written as `n.to_s` reads as `n` |
| HeaderUtils.ReqData | lib/utils/http_utils.rb:75-81 | a negative length raises; 0 gives nil; a positive length at the end of input raises on `nil.empty?`; otherwise the characters read |
| HeaderUtils.GetReqData | lib/utils/http_utils.rb:75-81 | computes `ReqData` and consumes exactly what was read |
| HeaderUtils.ReqDataReadsContentLength | lib/utils/http_utils.rb:76 | `Content-Length: n` reads exactly the first n characters of the body |
| HTTPUtils.ProperRequest | lib/utils/http_utils.rb:84-92 | without `Content-Length` the data is nil, and data that is present is non-empty and at most the announced length |
| HTTPUtils.MakeProperRequest | lib/utils/http_utils.rb:84-92 | reads the headers, then the body, then splits the request line; on success the client is left just after the body it read: the announced length, or less where the input ends |
| HTTPUtils.RequestWithoutBody | lib/utils/http_utils.rb:84-92 | a request without `Content-Length` gives its headers (last one wins), nil data, and method, URL and protocol from the request line |
| HTTPUtils.RequestWithBody | lib/utils/http_utils.rb:84-92 | a request ending in `Content-Length: n` has exactly the first n body characters as its data |
| HTTPUtils.MakeRequestObject | lib/utils/http_utils.rb:94-104 | nil data becomes `'{}'`; the other fields are copied |
| ServerResponses.Session.Puts | lib/utils/http_utils.rb:126-127 | appends one line, or raises IOError once the session is closed |
| ServerResponses.Session.Close | lib/utils/http_utils.rb:128 | closes the session and leaves the lines alone |
| ServerResponses.StatusLine | lib/utils/http_utils.rb:131-160 | each renderer's status line is `HTTP/1.1 ` followed by its own code |
| ServerResponses.Dispatch | lib/utils/http_utils.rb:119-124 | a status without a renderer falls back to 400; a listed one runs iff (it is 405) == (`options[:method]` non-nil), and otherwise raises an arity error |
| ServerResponses.ContentTypeOf | lib/utils/http_utils.rb:117 | `options[:content_type]` when truthy, else the argument |
| ServerResponses.ResponseLines | lib/utils/http_utils.rb:126-160 | the lines written are the status line, Content-Type, Content-Length (the constructor's length), Allow for 405 only, a blank line and the body: 6 lines for 405 and 5 otherwise |
| ServerResponses.ServerResponse.constructor | lib/utils/http_utils.rb:108-111 | keeps the session and the length |
| ServerResponses.ServerResponse.Head | lib/utils/http_utils.rb:131-134 | writes the status line, Content-Type and Content-Length, in that order |
| ServerResponses.ServerResponse.Render | lib/utils/http_utils.rb:131-160 | `r_200`, `r_400`, `r_404` and `r_500` write their three lines |
| ServerResponses.ServerResponse.Render405 | lib/utils/http_utils.rb:149-154 | `r_405` writes its three lines and `Allow: options['allowed']` |
| ServerResponses.ServerResponse.Call | lib/utils/http_utils.rb:120-121 | an arity mismatch raises before anything is written |
| ServerResponses.ServerResponse.RunRenderer | lib/utils/http_utils.rb:119-124 | a refused renderer raises with nothing written; a closed session raises IOError; otherwise exactly the head lines of the renderer `Dispatch` picks are appended |
| ServerResponses.ServerResponse.Respond | lib/utils/http_utils.rb:113-129 | sets the content type, then writes exactly `ResponseLines` for the renderer `Dispatch` picks and closes the session; a refused renderer raises with nothing written |
| ServerResponses.StatusTextPicksSameRenderer | lib/utils/http_utils.rb:119 | a status given as a String or Symbol picks the same renderer as the Integer |
| ServerResponses.Status201Answers400 | lib/utils/http_utils.rb:119-124 | 201 has no renderer, so it is answered with `HTTP/1.1 400 Bad Request` |
| ServerResponses.Status301Answers400 | lib/utils/http_utils.rb:119-124 | 301 has no renderer, so it is answered with `HTTP/1.1 400 Bad Request` |
| ServerResponses.LastDigitNotRendered | lib/utils/http_utils.rb:119 | a three-digit status whose last digit is not 0, 4 or 5 has no renderer |
| ServerResponses.StatusLineNamesCode | lib/utils/http_utils.rb:131-160 | the first line written names the chosen status code |
| TResponse.ValidateRequest | lib/utils/response.rb:22-35 | false iff the method is not a listed String, nil iff it is; a nil request raises |
| TResponse.EnsureResponse | lib/utils/response.rb:37-46 | true iff request and table are non-empty and `(method, url)` has an entry; raises iff the method has no bucket in a non-empty table |
| TResponse.GetResponse | lib/utils/response.rb:50-62 | it raises (always `nil[]`) iff the request is nil, or the request and table are non-empty and the table has no bucket for the method; a routed request is answered by activating the endpoint at `[method][url]`, and every answer other than the 404 envelope is such an activation |
| TResponse.Merged | lib/utils/response.rb:65-66 | request keys win over endpoint keys, nothing else is added, and `:responder` is gone |
| TResponse.Activated | lib/utils/response.rb:64-77 | a non-Hash result becomes `{status: 200, message: result}`; a Hash result keeps its keys and gets `:options` from the merged hash |
| TResponse.ActivateEndpoint | lib/utils/response.rb:64-77 | merging, deleting and amending step by step gives `Activated` |
| TResponse.ActivatedIsNotNotFound | lib/utils/response.rb:70-76 | no handler result is normalised into the 404 envelope |
| TResponse.NotFoundIff | lib/utils/response.rb:50-62 | for a non-nil request the answer is the 404 envelope iff the request or table is empty or nil, or the method's bucket lacks the exact URL |
| TResponse.MissingBucketRaises | lib/utils/response.rb:41 | a non-empty table without the method's bucket raises on `nil[...]` |
| TResponse.NilRequestRaises | lib/utils/response.rb:34 | a nil request raises before any 404 |
| TResponse.UnlistedMethodStillActivates | lib/utils/response.rb:50-62 | an unlisted method gets `false` from validation and is still routed and answered |
| TResponse.FooMethodIsServed | lib/utils/response.rb:50-62 | method `FOO` routed to an endpoint is answered by its handler |
| TResponse.OptionsFromRequestElseEndpoint | lib/utils/response.rb:64-76 | a Hash result carries the request's `:options` when the request has them, else the endpoint's |
| TResponse.HandlerSeesRequest | lib/utils/response.rb:65-68 | the handler never sees `:responder` and sees every other request key |
| Tsurezure.HandleRequest | lib/tsurezure.rb:28-41 | a nil URL raises on `nil.split`; otherwise params are `extract_url_params` of the full URL (nil included) and method, protocol, headers and data are copied |
| Tsurezure.RoutedUrl | lib/tsurezure.rb:29 | the routed URL is the text before the first `?`, and it is nil iff the URL is made of `?` only |
| Tsurezure.EmptyUrlRoutesNil | lib/tsurezure.rb:29-34 | the empty URL routes to nil and carries no parameters |
| Tsurezure.RoutedUrlBeforeQuery | lib/tsurezure.rb:29 | `path?rest` routes to `path`, and to `""` when the path is empty |
| Tsurezure.PortCheck | lib/tsurezure.rb:61-66 | a non-number fails with `nan_error('port')` before the range check, a number outside 0..65535 fails with `range_error(0, 65535)`, and any other port is kept |
| Tsurezure.PortErrorExplains | lib/tsurezure.rb:62-63 | a rejected port's message names `port` or states the bounds 0 and 65535 |
| Tsurezure.HTTPServer.New | lib/tsurezure.rb:61-67 | raises what the guards raise, and otherwise gives a new server with that port |
| Tsurezure.HTTPServer.constructor | lib/tsurezure.rb:66 | sets the port |

## Left out

- The TCP listener, `TCPServer.new`, the accept loop, `Thread.start` per connection, `listen`'s console line, `kill`/`abort` and `at_exit` (lib/tsurezure.rb): these are socket I/O, concurrency and process control.
- `RequestHandler#process` (lib/tsurezure.rb): its socket reads and the `pp` output. `handle_request` is modelled up to the hash it prints.
- `JSON.parse` in `make_request_object` and `to_json` in the error builders: a foreign library. The data stays text, and the payloads are ordered fields before serialisation.
- `make_request_object` also writes `'{}'` into the caller's hash (`req[:data] =`). The model returns a new record, so the caller's record is not changed.
- `activate_endpoint` amends the hash the handler returns in place. When a handler returns a hash it keeps elsewhere, that hash changes too. Values here have no identity, so this aliasing is not captured.
- Handlers are total functions: a handler that raises, or that has side effects, is not modelled.
- `TResponse::Utils#initialize` and its `valid_methods` reader: an instance copy of the method list that nothing here uses.
- The endpoint table is typed: a bucket is always a hash of endpoints. A non-hash bucket is not modelled.
- lib/utils/logbook.rb (console logging) and main.rb (command-line flags and bootstrap) are not part of this model.
- Float ports: `Numeric` admits floats, but `RubyValues.Value` has no floats, so ports are integers.
- `String#to_i` underscores (`"1_0".to_i == 10`) are not modelled; digits stop at the first non-digit.
- `Array#inspect` and `Hash#inspect` are not modelled: `RubyValues.ToS` renders arrays and hashes as empty text, which affects messages that interpolate them.
- URLUtils.MatchesUrlRegex: the Ruby Regexp engine is modelled only for patterns and paths without regex metacharacters. Anything else gives `None`.
- URLUtils.MatchIndices: the `url == '*'` guard is kept, but `*` has no variable, so it never decides the result.
- ErrorMessage.MakeHttpError: `status` is an Integer. Ruby accepts any object with `to_s`, and other kinds of status are not modelled.
- OUtil.CheckObjectKeysOutcome: `valid_keys` is a hash with Symbol keys, typed as `map<string, RubyClass>`. A hash with other kinds of key is not modelled. The same holds for OUtil.CheckObjectKeys, OUtil.AcceptedPrefix and OUtil.Accepts.
- OUtil.CheckKeyType: `object` is a Hash. Other receivers of `[]` are not modelled.
- HeaderUtils.ReadResult: `IO#read(n)` counts bytes and returns a binary string. Here one character of the input stands for one byte, so multi-byte characters in a body are not modelled. The same holds for HeaderUtils.Client.Read and HeaderUtils.ReqDataReadsContentLength.
- URLUtils.MatchIndices: lib/utils/http_utils.rb:37 reads `$LAST_MATCH_INFO`, an alias that only `require 'English'` defines, and no file of the library requires it. The model assumes the alias is bound, so each offset is that of the colon just scanned. If it is unbound, `nil.offset` raises NoMethodError for every pattern with a variable, and that path is not modelled. The same holds for URLUtils.GetMatchIndices.
- HeaderUtils.GetHeaders: when the loop raises, the contract does not state how much of the client's input was consumed.
- ServerResponses.ServerResponse.Respond: the body is a string. `puts` of an Array, which writes one line per element, is not modelled.
- ServerResponses.Session.Puts: each `puts` argument is recorded as one line. How `puts` adds a newline only when the text lacks one is not modelled.

## Findings

| source | as written | input that shows it | evidently intended | confidence | as-written member | corrected member |
|---|---|---|---|---|---|---|
| lib/utils/http_utils.rb:36-41 | assuming `$LAST_MATCH_INFO` is bound (`require 'English'`, which the library never loads), the idx-th variable binds `regex[res[idx]]`, the one path character at the idx-th colon of the collapsed pattern (a literal `:` counts too) | pattern `'/user/:id'`, path `'/user/42'` gives `{'id' => '4'}` | the variable binds the whole path segment at its position: `{'id' => '42'}` | not executed | URLUtils.UserIdBindsOneCharacter | URLUtils.SegmentMatchIndicesBindsSegments |

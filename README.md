# clip: a verified model of the file-serving core

clip is a small HTTP file server. A `GET /u/{file}` request names a file
under the storage root `$HOME/.clip/source`. The handler joins the name
onto that root. A name that resolves to the root itself gets a JSON error
envelope with code 1. A file that cannot be opened gets the envelope with
code 3. Otherwise the file's bytes are streamed back with status 200. The
listen address comes from `$HOME/.clip/config.json`, and the port
defaults to 4321.

This project models that core in Dafny and proves what each step does to
the response:

- `Errors` holds the error value `E` (a message and a `uint32` code), the
  catalog of four errors, and the `error(<code>): <msg>` text.
- `Response` is the HTTP response writer, kept as the list of
  `WriteHeader`/`Write` calls made on it.
  - The status is fixed by the first call. A `Write` before any
    `WriteHeader` means 200.
  - The body is the concatenation of the `Write` calls.
- `Handlers` holds the `Handler` class with its mutable `contentType` and
  its methods `SetResponseType`, `Write`, `Writefile` and `Error`.
  - Each method is proved against a pure function giving the calls it
    makes.
  - Lemmas state what the client then receives.
- `Files` is the file system as a map from path to entry. It has an open
  handle class with a `closed` flag and a set of the files still open.
- `Serve` is the request pipeline (`serve.handler`). The main method
  proves that the response gets exactly the calls of `ServeCalls`, that a
  refused name opens nothing, and that every opened file is closed again.
- `Paths` is Go's lexical `filepath.Clean` and `filepath.Join`. It proves
  which names the root check refuses, and that it does not refuse `..`.
- `Config` is the `Configer` class (`GetPort` stores the default 4321,
  `GetHost`, `GetAddr`), the fallback to `{}` when the file cannot be
  read, and the decoding of the file's JSON.
- `Utf8`, `Json`, `Base64` and `Decimal` are the encodings the core
  relies on. Each is paired with a decoder and a round-trip proof:
  - UTF-8 (RFC 3629);
  - the subset of JSON (RFC 8259) that `encoding/json` writes here;
  - base64 (section 4 of RFC 4648), used for a marshalled byte slice;
  - the decimal text of `%d`.

Behaviour of the code worth noting:

- The catalog messages are the Chinese strings of main.go:20-23 (成功,
  文件路径不合法, 不支持响应类型, 服务器内部异常).
- `Write` accepts only `"application/type"` and `"plain/text"`. A new
  handler's mode is `"application/json"`, which `Write` refuses with 500
  (`Handlers.DefaultModeRefused`).
- `Error` never sets a status, so an error envelope goes out as 200.
- A read failure in `Writefile` leaves the response untouched: no status
  and no body.

## Model

| member | source | states |
|---|---|---|
| Errors.NewE | main.go:129-131 | the new error carries exactly the given code and message |
| Errors.KindOf | main.go:20-23 | codes 0 to 3 identify the catalogued errors; any larger code names none |
| Errors.CatalogCodes | main.go:20-23 | OK, FilePathInvalid, NotSupportedType and ServerInternalError have codes 0, 1, 2 and 3; the code identifies the entry; every message is non-empty |
| Errors.ErrorString | main.go:133-135 | the text starts with "error(" and ends with the message exactly, after the code and ": " |
| Errors.ParseErrorStringRoundTrip | main.go:133-135 | the text `error(<code>): <msg>` reads back as the error that produced it, so the text carries the code in decimal and the message unchanged |
| Handlers.Handler.constructor | main.go:68-72 | a new handler writes to the given response and starts in mode "application/json" |
| Handlers.Handler.SetResponseType | main.go:74-77 | changes the mode and nothing else, and returns the same handler |
| Handlers.Handler.Write | main.go:79-101 | makes exactly one WriteHeader and then one Write on the response (status and body by mode), and returns ErrNotSupportedType exactly in an unsupported mode |
| Handlers.WriteServes | main.go:84-100 | in "plain/text" the response is 200 with the given bytes as its body; in "application/type" it is 200 and the body unmarshals back to the value; no error is returned |
| Handlers.WriteRefuses | main.go:92-95 | in any other mode the response is 500 with body "server error" and the result is ErrNotSupportedType, whatever the value |
| Handlers.DefaultModeRefused | main.go:70-95 | the mode a handler starts in is not one Write accepts |
| Handlers.UnmarshalMarshal | main.go:85 | the marshalled text of any value (a byte slice as base64) reads back as that value |
| Handlers.Handler.Writefile | main.go:103-111 | reads the whole input first, then writes status 200 and the bytes read, or returns the read error having written nothing |
| Handlers.WritefileEffect | main.go:103-111 | a read failure leaves the response empty and is returned; a read success gives status 200 and exactly the bytes read as the body |
| Handlers.Handler.Error | main.go:113-122 | appends one Write holding the JSON envelope of the error, ErrOK for nil, and nothing else |
| Handlers.ErrorEnvelope | main.go:113-122 | Error(nil) is Error(ErrOK); Error never calls WriteHeader (the client sees 200); the body is a JSON object whose "code" and "msg" are exactly the error's |
| Handlers.Envelope | main.go:117-120 | the marshalled map is an object of exactly two members, "code" holding the error's code and "msg" holding its message |
| Handlers.ReadEnvelopeRoundTrip | main.go:117-121 | the envelope `{"code":..,"msg":..}` decodes back to the same code and message |
| Serve.HandleRequest | main.go:137-161 | the response receives exactly ServeCalls; an open is attempted only for a name not refused; the set of open files is the same afterwards, so the deferred close always runs |
| Serve.ServeCalls | main.go:137-161 | whatever the name and the files, the client sees status 200 or no response call at all |
| Serve.RefusedName | main.go:140-145 | when the joined path equals the root, nothing is opened and the body is the code-1 envelope, with no status set |
| Serve.OpenFails | main.go:147-152 | when the file cannot be opened, the body is the code-3 envelope, with no status set |
| Serve.StreamFails | main.go:155-158 | when the opened file cannot be read, the response gets no call at all |
| Serve.Served | main.go:155-160 | a regular file is answered with status 200 and exactly its content |
| Serve.StorageRoot | main.go:27 | $HOME joined with ".clip/source" is a non-empty clean path other than "/" |
| Serve.StorageRootShape | main.go:27 | the storage root is a non-empty clean path other than "/", and ".." from it names $HOME/.clip |
| Serve.RefusedElements | main.go:140-142 | of the names without '/', exactly "" and "." are refused |
| Serve.DotDotEscapes | main.go:140-147 | ".." is not refused, and the handler opens $HOME/.clip, outside the storage root |
| Serve.UpAndBackRefused | main.go:140-142 | an element followed by "..", such as "a/..", is refused |
| Serve.RefusedWithoutDotDot | main.go:140-142 | a name with no ".." element is refused exactly when all its elements are empty or "." |
| Paths.Join | main.go:140 | filepath.Join is empty only when both parts are, and otherwise returns a path that cleaning leaves unchanged |
| Paths.CleanIdempotent | main.go:140 | the lexical cleaning behind filepath.Join is idempotent |
| Paths.RenderInjective | main.go:142 | two cleaned paths of the same kind (rooted or relative) are equal only when they keep the same elements |
| Paths.JoinGivesRoot | main.go:140-142 | joining a name onto a clean root gives the root back exactly when the name's elements leave the root's elements as they were |
| Paths.JoinElementGivesRoot | main.go:140-142 | for a name without '/', the join gives a clean root back exactly for "", "." and, only when the root is "/", ".." |
| Paths.JoinWithoutDotDotGivesRoot | main.go:140-142 | without "..", the join gives the root back exactly when every element of the name is empty or "." |
| Paths.JoinUpAndBack | main.go:140-142 | a plain element followed by ".." joins back to the root |
| Paths.JoinParent | main.go:27 | joining a/b onto a base and then ".." gives the base joined with a; the joined path is clean and is not "/" |
| Config.ReadConfigFile | config.go:34-40 | when the file cannot be read, the bytes returned decode to port 0 and an empty host |
| Config.Unmarshal | config.go:26-29 | decoding succeeds only for valid UTF-8 holding a JSON object or null, and the port it yields fits a 64-bit int |
| Config.NoConfigFile | config.go:34-40 | an unreadable file gives "{}", which decodes to port 0 and an empty host, so the address is ":4321" |
| Config.NewConfiger | config.go:26-32 | a configer holding the decoded port and host, or no configer exactly where the model's decoding fails (the Go code panics) |
| Config.ApplyMember | config.go:21-24 | a member whose key is not "port" (up to ASCII case) leaves the port alone, and one whose key is not "host" leaves the host alone |
| Config.ConfigFileRead | config.go:21-32 | a file holding {"port":p,"host":h} decodes to exactly p and h; for p other than 0 the address is h:p |
| Config.EffectivePort | config.go:42-47 | the port reported is never 0, and is the stored port whenever that is not 0 |
| Config.Configer.GetPort | config.go:42-47 | stores 4321 in place of a zero port, returns the stored port, and leaves the host alone |
| Config.EffectivePortIdempotent | config.go:43-46 | after the first GetPort, calling it again changes nothing |
| Config.Configer.GetHost | config.go:49-51 | returns the host and changes nothing |
| Config.Configer.GetAddr | config.go:53-55 | defaults the port as GetPort does, and returns host:port, which splits back into exactly that host and port |
| Config.Addr | config.go:54 | the text "%s:%d" splits at its last ':' back into exactly the host and the port |
| Config.SplitAddrRoundTrip | config.go:54 | "%s:%d" splits at its last ':' back into the host and the port, even for a host holding ':' |
| Json.ParseRenderText | main.go:117-120 | the JSON text written for a value parses back to that value |
| Utf8.DecodeEncode | main.go:94 | converting a string to bytes loses nothing: UTF-8 decoding gives the string back |
| Base64.DecodeEncode | main.go:85 | the base64 text json.Marshal writes for a byte slice decodes back to the same bytes |
| Decimal.ParseIntToString | config.go:54 | the decimal text of an integer reads back as that integer |

## Left out

- Server bootstrap and routing are not modelled: `main`, `NewServe`, `Serve`, `Register` and gorilla/mux matching (main.go:30-59). They are transport and a foreign library. The route variable is a parameter of `Serve.HandleRequest`. `Serve.RefusedElements` assumes the router's rule that `{file}` holds no '/'.
- The router's other guards are not modelled either. The `{file}` pattern never captures "", and gorilla/mux redirects a path holding "." or ".." to its cleaned form. So a request never reaches the handler with the name "..", and the gap `Serve.DotDotEscapes` shows is closed by the router, not by the handler.
- Logging (main.go:149, 157, 160) and `context.Background()` (main.go:138) have no effect on the response and are not modelled.
- The request value `r` kept by a Handler is not modelled; no handler method reads it.
- `os.Getenv("HOME")` is a parameter (`home`, or the root itself). `configPath` and the global `defaultConfiger` with its package-level wrappers (config.go:11-19, 57-59) are not modelled; they only wire `Configer` to that path.
- File system calls are abstract:
  - `os.Open`, `ioutil.ReadAll`, `ioutil.ReadFile` and `Close` act on a fixed map from path to entry.
  - Reading fails only for a directory.
  - Open-error texts are illustrative.
  - Partial reads, and files changing during a request, are not modelled.
- `Handlers.Handler.Write` does not model `json.Marshal` failure (channels, functions, NaN). Marshallable values are limited to null, booleans, integers, strings, objects and byte slices. Arrays and floats are not modelled. A nil byte slice, which json.Marshal writes as null, is the empty slice here.
- `Handlers.Handler.Write` requires a byte slice in "plain/text" mode; the Go type assertion panics otherwise.
- Json.Render writes the controls U+0008 and U+000C as `\u0008` and `\u000c`. Go 1.22 and later write `\b` and `\f` instead.
- Invalid UTF-8 inside Go strings, which `json.Marshal` replaces with U+FFFD, is not modelled; strings here are sequences of Unicode scalar values.
- Json.Parse accepts only what the model writes back plus whitespace and the usual escapes. Arrays, fractions, exponents and surrogate `\u` escapes, paired or lone, are refused.
- Config.Unmarshal therefore treats a configuration file holding an array, a fraction or an exponent as malformed, even where `encoding/json` would ignore that member.
- Config.NewConfiger: a file whose string literals hold invalid UTF-8 bytes, or a lone surrogate escape such as `\ud800`, gives no configer here. `encoding/json` accepts it and puts U+FFFD in its place. A surrogate pair, which `encoding/json` decodes to one character, gives no configer here either.
- Config.FoldEq matches keys up to ASCII case only. `encoding/json` also folds the Kelvin sign and the long s.
- Go's `int` is taken as 64 bits. Its bounds are checked only where the file is decoded: a port outside them is a decoding error. No other arithmetic in the core can overflow.
- The HTTP status constants are the numbers themselves (200 for OK, 500 for Internal Server Error, sections 15.3.1 and 15.6.1 of RFC 9110). Headers other than the status are not modelled.

# AppDynamics event sink — a Dafny model

This project models the AppDynamics sink of the Kubernetes event exporter
(`pkg/sinks/appdynamics.go`): a sink that takes one enhanced cluster event,
renders it through the configured layout, wraps the rendered JSON object in a
one-element JSON array, POSTs it to the configured endpoint with the fixed
content type `application/vnd.appd.events+json;v=2` plus every configured
header, and reports success for a 2xx status and an error otherwise.

Everything `Send` asks of code outside the file is an input: the result of
`serializeEventWithLayout`, whether `http.NewRequest` fails, the result of
`setupTLS`, the status or error of `client.Do`, and the result of
`ioutil.ReadAll` (datatype `AppDynamics.External`). `Send` returns the error
it would return (`Outcome`: `Delivered` for nil, `Failed(err)` otherwise)
together with the list of foreign calls it made, in order (`Call`), which
records the request exactly as it is handed to `client.Do`.

Layout:

- `wrappers.dfy` — `Option` and `Result`.
- `go_errors.dfy` — Go error values: plain errors and `fmt.Errorf` `%w` wrapping, with `Message` (`Error()`) and `Unwrap`.
- `byte_buffer.dfy` — `bytes.Buffer` as a class whose `Write` appends.
- `http_request.dfy` — the header table (`http.Header`, key to list of values, `Add` appends) and the request object built by `http.NewRequest`.
- `appdynamics.dfy` — the configuration, the envelope, the header table the sink builds, the status check, the specification `Expected` of one `Send`, the sink class with `Send` written step by step as the Go code is (three buffer writes, header additions in place, a loop over the configured headers in an unspecified order), and the lemmas about `Expected`.

`Send` is proved against `Expected`; the lemmas next to `Expected` state what
the source promises about every run: which error comes back, which calls are
made, and what goes on the wire.

The model follows the code as written: the code never attaches the
caller's context to the request (it passes no cancellation to the
transport), it builds the transport on every call by assigning
`http.DefaultClient.Transport`, and it adds configured headers without
replacing the content type.

## Model

| member | source | states |
|---|---|---|
| AppDynamics.AppDynamicsSink.Send | pkg/sinks/appdynamics.go:33-78 | Building the body with three buffer writes, adding the content type and then every configured header in whatever order the map yields its keys, and checking each foreign result in turn gives exactly the outcome and the call sequence of `Expected` |
| AppDynamics.RenderFailureShortCircuits | pkg/sinks/appdynamics.go:34-37 | A render error is returned unchanged and the renderer is the only foreign call: no request, no headers, no TLS, no transport |
| AppDynamics.CallsInOrder | pkg/sinks/appdynamics.go:34-71 | The foreign calls always come in the order render, create request, set up TLS, execute, read body, close body, with none skipped or repeated; a failure only cuts the sequence short |
| AppDynamics.Envelope | pkg/sinks/appdynamics.go:39-43 | The body is the rendered bytes plus two: `[` first, `]` last, and the rendered bytes unmodified at positions 1 to the length of the rendering |
| AppDynamics.EnvelopeRoundTrip | pkg/sinks/appdynamics.go:40-43 | Taking the envelope off gives back exactly the rendered bytes (no re-encoding) |
| AppDynamics.EnvelopeInjective | pkg/sinks/appdynamics.go:40-43 | Two renderings with the same request body are the same rendering |
| AppDynamics.RequestCarriesEnvelope | pkg/sinks/appdynamics.go:40-62 | The request is created as a POST to the configured endpoint with the enveloped rendering as body, and is executed with that body and the configured header table |
| AppDynamics.RequestFailureShortCircuits | pkg/sinks/appdynamics.go:45-48 | A request-construction error is returned unchanged, after only the render and create-request calls |
| HttpRequest.AddValue | pkg/sinks/appdynamics.go:50-52 | Adding a header appends the value after every value already under its key and leaves every other key and every earlier value in place |
| HttpRequest.Request.constructor | pkg/sinks/appdynamics.go:45 | A created request has the given method, URL and body and an empty header table |
| HttpRequest.Request.AddHeader | pkg/sinks/appdynamics.go:50-52 | Adding a header in place leaves the request's table equal to `AddValue` of the old table |
| HttpRequest.AddValueCount | pkg/sinks/appdynamics.go:50-53 | Each addition puts exactly one more value in the table |
| ByteBuffer.Buffer.constructor | pkg/sinks/appdynamics.go:40 | A new buffer is empty |
| ByteBuffer.Buffer.Write | pkg/sinks/appdynamics.go:41-43 | A write appends its bytes after what the buffer holds |
| AppDynamics.ConfiguredHeaderEmpty | pkg/sinks/appdynamics.go:50 | Before any configured header, the table holds the content type alone |
| AppDynamics.ConfiguredHeaderStep | pkg/sinks/appdynamics.go:51-53 | Adding one more configured entry to the table of some entries gives the table of those entries plus it |
| AppDynamics.ContentTypeFirst | pkg/sinks/appdynamics.go:50 | The first value under `Content-Type` is always the vendor media type, also with no configured headers |
| AppDynamics.HeaderValues | pkg/sinks/appdynamics.go:50-53 | A value is under a key exactly when it is the fixed media type under `Content-Type` or that key's configured value, both directions |
| AppDynamics.ConfiguredHeadersPresent | pkg/sinks/appdynamics.go:51-53 | Every configured header is present, as the last value under its key |
| AppDynamics.ConfiguredHeaderCount | pkg/sinks/appdynamics.go:50-53 | The table holds one plus the number of configured headers values: nothing is replaced |
| AppDynamics.AnyOrder | pkg/sinks/appdynamics.go:51-53 | Visiting the configured headers in any order yields the same table |
| AppDynamics.TlsFailureWrapped | pkg/sinks/appdynamics.go:54-57 | A TLS setup error comes back as an error whose message is `failed to setup TLS: ` before the cause's message and which unwraps to the cause, and the request is never executed |
| GoErrors.Errorf | pkg/sinks/appdynamics.go:56 | A `%w`-wrapped error's message is the prefix followed by the cause's message, and it unwraps to the cause |
| AppDynamics.ExactlyOneAttempt | pkg/sinks/appdynamics.go:54-65 | The request is executed once exactly when rendering, request creation and TLS setup succeed, and not at all otherwise: there is no retry |
| AppDynamics.ExecutionErrorsUnchanged | pkg/sinks/appdynamics.go:62-71 | A transport error and a body-read error are returned unchanged |
| AppDynamics.BodyClosedAfterResponse | pkg/sinks/appdynamics.go:62-71 | Whenever the request returns a response, the body is read and then closed, on the read-error, rejected and delivered paths alike |
| AppDynamics.AsString | pkg/sinks/appdynamics.go:74 | The body becomes a string of the same length, character for byte |
| AppDynamics.AsStringRoundTrip | pkg/sinks/appdynamics.go:74 | The body's bytes can be recovered from the message text exactly |
| AppDynamics.Classify | pkg/sinks/appdynamics.go:73-77 | The status is success exactly when it lies in [200,300); otherwise the error message is `not successfull (2xx) response: ` followed by the body verbatim |
| AppDynamics.StatusDecides | pkg/sinks/appdynamics.go:62-77 | When every call succeeds, `Send` reports delivery exactly for a 2xx status, and otherwise an error carrying the body |
| AppDynamics.DeliveredMeansAccepted | pkg/sinks/appdynamics.go:33-77 | Delivery is reported only when all six calls were made and the status was 2xx |
| AppDynamics.AppDynamicsSink.constructor | pkg/sinks/appdynamics.go:25-27 | A sink holds the configuration it was given |
| AppDynamics.NewAppDynamicsSink | pkg/sinks/appdynamics.go:21-23 | Creating a sink never fails and keeps the configuration unchanged |
| AppDynamics.AppDynamicsSink.Close | pkg/sinks/appdynamics.go:29-31 | Closing changes no state |

## Left out

- `serializeEventWithLayout` and `setupTLS` are defined outside `pkg/sinks/appdynamics.go` and are not part of this model; their results are inputs. For the same reason the configuration's `Layout` and `TLS` fields, which only those two functions read, are not in `AppDynamicsConfig`, and the TLS client configuration is an opaque token.
- `http.NewRequest` URL parsing, `client.Do` and `ioutil.ReadAll` are library and network behaviour: their results are inputs, and the status code and body do not depend on the request in the model.
- The canonicalisation of header keys inside `Header.Add` is library behaviour: keys are taken as given, so two configured keys that differ only in case are separate keys here, and the order-independence of the final table rests on that.
- The assignment of a fresh transport to the shared `http.DefaultClient` (lines 58-61) is a race between concurrent sends; the model only records that the execution uses the TLS configuration `setupTLS` returned.
- The context argument of `Send` is never attached to the request, so there is no cancellation behaviour to model; the event argument is only passed to the renderer and is absent too.
- The rendered bytes are not checked to be JSON, by the code or the model.
- `AppDynamics.AsString` stands for Go's byte-preserving `string(body)`: a character here stands for one byte, and no text encoding is modelled.
- AppDynamics.NewAppDynamicsSink: the configuration is held by value, not through the `*AppDynamicsConfig` pointer the sink shares with its caller, so the model has no nil configuration (which `Send` would dereference and panic on at line 34) and does not see later changes the caller makes to the struct or its `Headers` map.

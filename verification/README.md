# OpenSchema MMA SDK: bootstrap flow and metrics queue, in Dafny

This project models the statable core of the OpenSchema mobile metrics agent (MMA) SDK:

- **Bootstrap** (`bootstrap.dfy`, module `Bootstrap`): `BootstrapManager` provisions the
  device. It builds a TLS channel that presents no client key. Under the per-call trust
  assumption listed under "## Left out", the channel trusts the certificates in the key store
  as the call finds them: the controller root stored under "bootstrap" at
  construction, plus whatever else the store holds (on a retry, the "gw_key" certificate). It asks the bootstrapper for a challenge for the
  device UUID and derives r/s from it. It generates a gateway key pair under "gw_key", builds a
  CSR naming the UUID and sends a `ChallengeResponse` with the fixed window 0/10000. It
  installs the signed certificate as the only chain element of "gw_key", and finally sets the
  success flag. The gRPC stub, `KeyHelper`, the CSR encoder and the X.509 parser are
  *collaborators*: a record of total functions, each of which returns a value or throws a Java
  exception (`Outcome`). The Android key store is a map from alias to entry. A call's `trace`
  lists the steps it started in order, and its last element is the step that threw, if one did.
- **Metric construction** (`metrics_manager.dfy`, module `MetricsManager`): `collect` builds one
  `MetricsContainer` with a single UNTYPED family holding a single metric. The metric carries
  the labels ("uuid", UUID), ("timestamp", `Long.toString` of the clock) and then the caller's
  pairs. `Decompose` is the inverse reader that the round-trip lemmas use. `Long.toString` and
  its strict inverse are in `decimal.dfy`. The message types are in `metrics_proto.dfy`.
- **Metrics queue** (`metrics_repository.dfy`, module `MetricsRepository`): the
  `MetricsRepository` singleton and its unbounded FIFO queue. The JVM heap is explicit (the
  static `_instance`, each repository's final queue field, and queue contents), so "the same
  instance" and "the live queue, not a copy" can be stated.

The model follows the code, including where it behaves differently from what a reader of the
protocol might expect:

- A failed re-bootstrap is not atomic. Once "gw_key" has been regenerated, a later failure
  (signing rejected, bad certificate) leaves a new key there that is chained only to its
  self-signed certificate. The previously signed credential is gone, and `isBootstrapSuccess()`
  still returns true from the earlier success (`Bootstrap.FailedRetryKeepsFlag`). Key
  generation itself can already lose it: a generator that clears the alias when it fails
  leaves nothing under "gw_key" (`Bootstrap.FailedKeygenLosesCredential`).
- The installed certificate is not checked against the CSR key. Whatever parses is installed
  together with the key already under "gw_key".
- r and s are not fields of the challenge. `KeyHelper.getRandS` derives them from it.
- There is no explicit state machine and no typed error result. Progress is a boolean flag, and
  failures are Java exceptions that `bootstrapNow` lets propagate.
- There is no atomic "drain all". `getQueue` returns the live queue, and a consumer removes
  elements one by one with `poll`.

## Model

| member | source | states |
|---|---|---|
| Decimal.NatToDigits | OpenSchemaSDK/src/main/java/io/openschema/mma/metrics/MetricsManager.java:66 | the digits `Long.toString` writes for a non-negative value are canonical: non-empty, all decimal digits, no leading zero unless the value is 0 |
| Decimal.LongToString | OpenSchemaSDK/src/main/java/io/openschema/mma/metrics/MetricsManager.java:66 | a rendered long is non-empty and starts with '-' exactly when the value is negative |
| Decimal.LongRoundTrip | OpenSchemaSDK/src/main/java/io/openschema/mma/metrics/MetricsManager.java:64-67 | the timestamp label value reads back to exactly the clock reading, for every long |
| Decimal.ParseLongCanonical | OpenSchemaSDK/src/main/java/io/openschema/mma/metrics/MetricsManager.java:64-67 | every numeral the reader accepts is exactly what `Long.toString` writes for its value, so the rendering is canonical |
| MetricsManager.CopyLabels | OpenSchemaSDK/src/main/java/io/openschema/mma/metrics/MetricsManager.java:72-78 | caller pairs become labels in input order, one per pair, with names and values unchanged |
| MetricsManager.Collect | OpenSchemaSDK/src/main/java/io/openschema/mma/metrics/MetricsManager.java:52-88 | the container has the gateway id = UUID and one family named metricName of type UNTYPED with one metric. The metric has untyped value 0, no timestampMs, and 2 + n labels: "uuid" = UUID, then "timestamp" (reads back to the clock), then the caller's pairs in order |
| MetricsManager.CollectDecompose | OpenSchemaSDK/src/main/java/io/openschema/mma/metrics/MetricsManager.java:52-88 | the call's arguments (UUID, clock, name, pairs) can be recovered from the container it built |
| MetricsManager.DecomposeCollect | OpenSchemaSDK/src/main/java/io/openschema/mma/metrics/MetricsManager.java:52-88 | conversely, every container that `Decompose` accepts is exactly what the recovered call builds |
| MetricsManager.CollectInjective | OpenSchemaSDK/src/main/java/io/openschema/mma/metrics/MetricsManager.java:52-88 | different calls build different containers: nothing is dropped or merged |
| MetricsManager.ReservedNamesKept | OpenSchemaSDK/src/main/java/io/openschema/mma/metrics/MetricsManager.java:72-78 | no filtering or de-duplication: a caller pair named "uuid" or "timestamp" still appears, so the name occurs twice |
| MetricsManager.NewManager | OpenSchemaSDK/src/main/java/io/openschema/mma/metrics/MetricsManager.java:38-40 | the constructor binds the manager to the singleton repository (the existing one if there is one) and to the identity |
| MetricsManager.CollectInto | OpenSchemaSDK/src/main/java/io/openschema/mma/metrics/MetricsManager.java:52-97 | each collect appends exactly one container, the one built for these arguments, to the tail of the repository queue. Earlier contents and every other queue are unchanged |
| MetricsManager.ManagersShareQueue | OpenSchemaSDK/src/main/java/io/openschema/mma/metrics/MetricsManager.java:38-40 | two managers built one after the other share one repository, and the second construction changes nothing |
| MetricsRepository.Startup | OpenSchemaSDK/src/main/java/io/openschema/mma/metrics/MetricsRepository.java:32 | before the first `getRepository` there is no instance and no repository |
| MetricsRepository.GetRepository | OpenSchemaSDK/src/main/java/io/openschema/mma/metrics/MetricsRepository.java:37-47 | the first call creates a fresh repository with an empty queue and stores it as the instance. Later calls return the stored instance and change nothing |
| MetricsRepository.GetQueue | OpenSchemaSDK/src/main/java/io/openschema/mma/metrics/MetricsRepository.java:55-61 | returns the repository's queue object itself: whatever `queueMetric` on that repository appends shows up at the tail of the returned queue, and no other queue changes |
| MetricsRepository.QueueMetric | OpenSchemaSDK/src/main/java/io/openschema/mma/metrics/MetricsRepository.java:55-57 | appends at the tail: the length grows by exactly one, the earlier contents and order are kept, and nothing else changes. There is no rejection and no bound |
| MetricsRepository.Poll | OpenSchemaSDK/src/main/java/io/openschema/mma/metrics/MetricsRepository.java:49 | a removal from the queue takes the head, or returns null exactly when the queue is empty |
| MetricsRepository.InstanceStable | OpenSchemaSDK/src/main/java/io/openschema/mma/metrics/MetricsRepository.java:37-47 | once the instance exists, every later action on the repository reaches that same instance |
| MetricsRepository.SingleInstance | OpenSchemaSDK/src/main/java/io/openschema/mma/metrics/MetricsRepository.java:37-47 | all actions of any run reach one and the same repository |
| MetricsRepository.NewRepositoryEmpty | OpenSchemaSDK/src/main/java/io/openschema/mma/metrics/MetricsRepository.java:49-52 | a newly created repository's queue is empty |
| MetricsRepository.QueueAllAppends | OpenSchemaSDK/src/main/java/io/openschema/mma/metrics/MetricsRepository.java:55-57 | queueing a sequence appends it, in order, after the queue's contents, however long it is: nothing is refused |
| MetricsRepository.PollNTakesHead | OpenSchemaSDK/src/main/java/io/openschema/mma/metrics/MetricsRepository.java:49 | n removals return the first n elements of the queue, head first, and leave the rest |
| MetricsRepository.FifoOrder | OpenSchemaSDK/src/main/java/io/openschema/mma/metrics/MetricsRepository.java:37-61 | on a fresh process, queueing cs through the repository and then removing \|cs\| elements from its queue returns exactly cs in queueing order and leaves the queue empty |
| MetricsRepository.LiveQueue | OpenSchemaSDK/src/main/java/io/openschema/mma/metrics/MetricsRepository.java:59-61 | a removal through one `getQueue` result is visible through every later `getQueue` call |
| Bootstrap.SetCertificateEntry | OpenSchemaSDK/src/main/java/io/openschema/mma/bootstrap/BootstrapManager.java:99 | storing the root adds or replaces a trusted-certificate entry under the alias and touches no other alias; an alias that already holds a key entry makes it throw `KeyStoreException` |
| Bootstrap.NewBootstrapManager | OpenSchemaSDK/src/main/java/io/openschema/mma/bootstrap/BootstrapManager.java:74-103 | construction succeeds exactly when the key store loads, the root parses and "bootstrap" does not already hold a key entry. Otherwise it rethrows the load or parse exception, or throws `KeyStoreException`. The root is stored under "bootstrap" and trusted, nothing else changes, and the flag is false |
| Bootstrap.TrustedCertificates | OpenSchemaSDK/src/main/java/io/openschema/mma/bootstrap/BootstrapManager.java:100-102 | the trust managers built over the store accept the certificate of every entry: each trusted certificate and the first certificate of each key entry's chain, and nothing else |
| Bootstrap.GetKey | OpenSchemaSDK/src/main/java/io/openschema/mma/bootstrap/BootstrapManager.java:118 | the private key under an alias when that alias holds a key entry, and null when it is missing or holds a trusted certificate |
| Bootstrap.StoreSignedCertificate | OpenSchemaSDK/src/main/java/io/openschema/mma/bootstrap/BootstrapManager.java:110-120 | succeeds exactly when the certificate parses and "gw_key" holds a key. It then re-installs that same key under "gw_key" with a chain of exactly the parsed certificate and touches no other alias. A parse failure or a missing key throws |
| Bootstrap.BootstrapTls | OpenSchemaSDK/src/main/java/io/openschema/mma/bootstrap/BootstrapManager.java:144 | the bootstrap SSL context has no client key managers. Its trust anchors, built from the store when the call starts, include the stored "bootstrap" root and come only from store entries |
| Bootstrap.BootstrapNow | OpenSchemaSDK/src/main/java/io/openschema/mma/bootstrap/BootstrapManager.java:137-180 | the started steps follow the fixed order challenge, r/s, keygen, CSR, sign, install, flag, starting from the first. The call returns normally exactly when all seven ran. The flag afterwards is true exactly when it was true before or this call returned normally, so it is never cleared. The channel goes to the given address and port, with no client keys and the trust anchors of the store as the call finds it, and that context is kept as the manager's SSL context |
| Bootstrap.EarlierStepsReturned | OpenSchemaSDK/src/main/java/io/openschema/mma/bootstrap/BootstrapManager.java:159-177 | no step starts unless every earlier step returned normally |
| Bootstrap.StopsAtFirstThrow | OpenSchemaSDK/src/main/java/io/openschema/mma/bootstrap/BootstrapManager.java:159-180 | the call throws exactly when its last started step throws, and it throws that step's own exception unchanged: there is no partial success, no step after a throw, and no wrapping or replacing of the exception |
| Bootstrap.ResponseBinding | OpenSchemaSDK/src/main/java/io/openschema/mma/bootstrap/BootstrapManager.java:153-170 | the challenge is requested for the device UUID. The response carries that UUID, the challenge received, the window 0/10000, the bytes of the CSR (which names the UUID) and exactly the r and s derived from that challenge |
| Bootstrap.GatewayKeyInstalled | OpenSchemaSDK/src/main/java/io/openschema/mma/bootstrap/BootstrapManager.java:110-120 | once past keygen, a pair was generated under "gw_key" and its private key is stored there, and the CSR certifies its public key. The certificate the flow installs is exactly the one `requestSign` returned for its response. On success "gw_key" holds that key with that parsed certificate as its whole chain |
| Bootstrap.OnlyGatewayAliasWritten | OpenSchemaSDK/src/main/java/io/openschema/mma/bootstrap/BootstrapManager.java:159-177 | no alias other than "gw_key" changes. Nothing changes when the call throws before key generation. When key generation throws, "gw_key" is left as it was, or removed if the generator clears the alias on failure. The "bootstrap" root stays stored and trusted |
| Bootstrap.RetryTrustsGatewayCertificate | OpenSchemaSDK/src/main/java/io/openschema/mma/bootstrap/BootstrapManager.java:144 | a call that finds a certificate under "gw_key" also trusts that certificate on its bootstrap channel |
| Bootstrap.SignedCertificateTrustedNext | OpenSchemaSDK/src/main/java/io/openschema/mma/bootstrap/BootstrapManager.java:144-177 | after a successful call, the next call's channel trusts the signed gateway certificate the previous call installed |
| Bootstrap.FailedKeygenLosesCredential | OpenSchemaSDK/src/main/java/io/openschema/mma/bootstrap/BootstrapManager.java:159-161 | a previously successful manager whose retry fails inside key generation, on a generator that clears the alias on failure, has no "gw_key" entry left and still reports success |
| Bootstrap.FailedRetryKeepsFlag | OpenSchemaSDK/src/main/java/io/openschema/mma/bootstrap/BootstrapManager.java:159-180 | a previously successful manager whose retry fails after keygen still reports success, while gw_key now holds the new key with only its self-signed certificate |
| Bootstrap.SessionFlag | OpenSchemaSDK/src/main/java/io/openschema/mma/bootstrap/BootstrapManager.java:72-180 | after any sequence of bootstrapNow calls, the flag is true exactly when it was true before or some call returned normally |
| Bootstrap.FreshManagerFlag | OpenSchemaSDK/src/main/java/io/openschema/mma/bootstrap/BootstrapManager.java:72-197 | on a freshly constructed manager, `isBootstrapSuccess()` is true exactly when some bootstrapNow call has returned normally |
| Bootstrap.SessionValid | OpenSchemaSDK/src/main/java/io/openschema/mma/bootstrap/BootstrapManager.java:93-103 | no bootstrap call removes or untrusts the "bootstrap" root |
| Bootstrap.HardwareKeyUntouched | OpenSchemaSDK/src/main/java/io/openschema/mma/bootstrap/BootstrapManager.java:61-63 | "gw_key" differs from the hardware alias "", and the flow never adds, removes or changes the "" entry |
| Bootstrap.StoreIdempotent | OpenSchemaSDK/src/main/java/io/openschema/mma/bootstrap/BootstrapManager.java:110-120 | installing the same signed certificate twice gives the same key store as installing it once |

## Left out

- Android `Context`, resources and `Log`: the root certificate's bytes are a parameter, and logging has no effect on state.
- Cryptography and platform key storage: `KeyStore.getInstance`/`load` is one outcome (the loaded contents, or an exception). RSA key generation, `KeyHelper.getRandS`, CSR encoding and X.509 parsing are collaborator functions. Key material is opaque.
- Key store semantics: `getKey` on a missing alias, or on one that is not a key entry, gives null. `setKeyEntry` with a null key is modelled as throwing `KeyStoreException`. Generating a key installs it with the store's self-signed certificate.
- `SSLContext.getInstance("TLS")`/`init`, `TrustManagerFactory.getInstance`/`init`, `CertificateFactory.getInstance("X.509")`, the `ChallengeResponse` constructor, and the `KeyFactory`/`KeyManagerFactory` lookups in `storeSignedCertificate` (whose results are unused) are assumed not to throw. Channel construction is assumed not to throw. Only the gRPC calls, which throw `StatusRuntimeException`, can fail on the network side.
- Bootstrap.TrustedCertificates rests on an assumption about the platform: the trust managers are rebuilt from the key store on every `getTrustManagers()` call, as Conscrypt's own factory does. Two other behaviours exist. A JSSE factory reads the store once, at `init` in the constructor. On Android 7.0 and later, the default factory comes from Network Security Config, and it reads the store's certificates at first use and keeps them. Under either of those, a retry on the same manager would not trust the new "gw_key" certificate. `Bootstrap.RetryTrustsGatewayCertificate` and `Bootstrap.SignedCertificateTrustedNext` hold only under the per-call assumption.
- Bootstrap.StoreSignedCertificate: `getKey` is assumed not to throw, so its `UnrecoverableKeyException` and `NoSuchAlgorithmException` (declared by `storeSignedCertificate`) never arise. `setKeyEntry` on a key that is present is assumed to succeed. `setCertificateEntry` is assumed to fail only when the alias holds a key entry. The platform may fail any of these "for some other reason"; the model has no such failure.
- Bootstrap.StopsAtFirstThrow: `StepOutcome` judges the install step only by the certificate parse, and takes its exception from there. Within the flow a "gw_key" key always exists at that point, so, given the key-store assumption in the line above, nothing is lost.
- Bootstrap.OnlyGatewayAliasWritten: a key generation that throws either leaves "gw_key" untouched or removes it; the model does not cover a generator that leaves a partial entry behind.
- Java nulls: strings and lists are never null here. In the source a null name, value or UUID makes a protobuf setter throw `NullPointerException`.
- Concurrency: the double-checked locking in `getRepository`, the thread-safety of `ConcurrentLinkedQueue`, and concurrent `bootstrapNow` calls. Every operation is modelled as sequential and atomic.
- `MetricsWorker` scheduling and the actual push, and so the dispatcher's credential gating: that code is not part of this model.
- `Identity` (an opaque UUID string here) and `WifiNetworkMetrics` (one producer of pairs).
- `System.currentTimeMillis`: the timestamp is a parameter of the Java `long` range.
- The untyped sample value is a double. It is modelled as the real 0.0.
- Commented-out code: the mutual-TLS metrics channel at the end of `bootstrapNow`, and `pushSync`.
- Decimal.ParseLong accepts only the exact form `Long.toString` writes (no '+', no leading zeros, no "-0"). It is the partner of the rendering, not a model of `Long.parseLong`.


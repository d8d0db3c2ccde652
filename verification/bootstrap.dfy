/**
 * `BootstrapManager`: the one-shot provisioning flow that trades the device UUID for a signed
 * gateway certificate. Its collaborators (the gRPC bootstrapper service, `KeyHelper`, the CSR
 * encoder and the X.509 parser) are parameters: each call either returns a value or throws.
 * The Android key store is a map from alias to entry.
 */
module Bootstrap {
  import opened Wrappers

  const HW_KEY_ALIAS := ""
  const GW_KEY_ALIAS := "gw_key"
  /** Alias under which the constructor stores the controller's root certificate. */
  const BOOTSTRAP_ROOT_ALIAS := "bootstrap"
  /** The validity window the flow writes into every challenge response. */
  const RESPONSE_WINDOW_START := 0
  const RESPONSE_WINDOW_LENGTH := 10000

  newtype Byte = x: int | 0 <= x < 256
  type Bytes = seq<Byte>

  /** The checked exceptions `bootstrapNow` declares, plus gRPC's unchecked status exception. */
  datatype JavaException =
    | StatusRuntimeException
    | NoSuchAlgorithmException
    | KeyManagementException
    | IOException
    | OperatorCreationException
    | UnrecoverableKeyException
    | CertificateException
    | SignatureException
    | KeyStoreException
    | InvalidKeyException

  /** The result of a Java call: a value, or the exception it threw. */
  datatype Outcome<+T> = Ok(value: T) | Throws(exception: JavaException)

  /** A parsed X.509 certificate, identified by its DER encoding. */
  datatype X509 = X509(der: Bytes)
  datatype PrivateKey = PrivateKey(handle: nat)
  datatype PublicKey = PublicKey(encoded: Bytes)

  /** A key pair made by the Android key store, with the self-signed certificate the store
      issues for every key it generates. */
  datatype KeyPair = KeyPair(privateKey: PrivateKey, publicKey: PublicKey, selfSigned: X509)

  datatype Entry =
    | TrustedCertificate(cert: X509)
    | PrivateKeyEntry(key: PrivateKey, chain: seq<X509>)

  type KeyStore = map<string, Entry>

  /** `AccessGatewayID`, the request of `getChallenge`. */
  datatype AccessGatewayId = AccessGatewayId(id: string)
  datatype Challenge = Challenge(bytes: Bytes)
  /** The r and s components `KeyHelper.getRandS` derives from a challenge. */
  datatype RandS = RandS(r: Bytes, s: Bytes)
  /** A certificate-signing request for `publicKey`, naming the device `identity`. */
  datatype Csr = Csr(publicKey: PublicKey, identity: string)

  /** The fields of a `ChallengeResponse` as its constructor receives them. */
  datatype ChallengeResponse = ChallengeResponse(
    hwId: string, challenge: Challenge, windowStart: int, windowLength: int,
    csr: Bytes, r: Bytes, s: Bytes)

  /** The certifier's `Certificate` message. */
  datatype SignedCertificate = SignedCertificate(certDer: Bytes)

  /** An `SSLContext`: the client key managers (`None` for null) and the trusted roots. */
  datatype TlsContext = TlsContext(clientKeys: Option<seq<string>>, trustAnchors: set<X509>)
  datatype Channel = Channel(address: string, port: int, tls: TlsContext)

  /**
   * What each collaborator returns or throws, as a function of what it is given. A key
   * generation that throws may have deleted the entries under its alias first, as the Android
   * key-pair generator does; `keygenFailureClears` says whether it did.
   */
  datatype Collaborators = Collaborators(
    getChallenge: (Channel, AccessGatewayId) -> Outcome<Challenge>,
    getRandS: Challenge -> Outcome<RandS>,
    generateKeyPair: string -> Outcome<KeyPair>,
    keygenFailureClears: bool,
    encodeCsr: Csr -> Outcome<Bytes>,
    requestSign: (Channel, ChallengeResponse) -> Outcome<SignedCertificate>,
    parseCertificate: Bytes -> Outcome<X509>)

  /**
   * The fields of a `BootstrapManager` that the flow reads or writes. `mTrustManagerFactory`
   * keeps a reference to `mKeyStore`, and each `getTrustManagers()` call builds its trust
   * managers from the store as it is at that moment, so the trusted set is not a field.
   */
  datatype BootstrapManager = BootstrapManager(
    identity: string,                   // mIdentity.getUUID()
    keyStore: KeyStore,                 // mKeyStore
    sslContext: Option<TlsContext>,     // mSSLContext
    bootstrapSuccess: bool)             // mBootstrapSuccess

  /** `KeyStore.getCertificate`: a trusted entry's certificate, or the first certificate of a
      key entry's chain; null for a key entry without a chain. */
  function EntryCertificate(e: Entry): Option<X509> {
    match e
    case TrustedCertificate(cert) => Some(cert)
    case PrivateKeyEntry(_, chain) => if |chain| > 0 then Some(chain[0]) else None
  }

  /** The certificates the trust managers built from `ks` accept as anchors: the certificate
      of every entry, trusted-certificate and key entries alike. */
  function TrustedCertificates(ks: KeyStore): (trusted: set<X509>)
    ensures forall a :: a in ks && ks[a].TrustedCertificate? ==> ks[a].cert in trusted
    ensures forall a :: a in ks && ks[a].PrivateKeyEntry? && |ks[a].chain| > 0 ==> ks[a].chain[0] in trusted
    ensures forall c :: c in trusted ==> exists a :: a in ks && EntryCertificate(ks[a]) == Some(c)
  {
    set a | a in ks && EntryCertificate(ks[a]).Some? :: EntryCertificate(ks[a]).value
  }

  /** The manager invariant: the root stored at construction is still in place. */
  predicate Valid(m: BootstrapManager) {
    && BOOTSTRAP_ROOT_ALIAS in m.keyStore
    && m.keyStore[BOOTSTRAP_ROOT_ALIAS].TrustedCertificate?
  }

  /** `KeyStore.setCertificateEntry(alias, cert)`: adds or replaces a trusted-certificate
      entry, and throws when `alias` already names an entry of another kind. */
  function SetCertificateEntry(ks: KeyStore, alias: string, cert: X509): (r: Outcome<KeyStore>)
    ensures r.Ok? <==> alias !in ks || ks[alias].TrustedCertificate?
    ensures r.Throws? ==> r.exception == KeyStoreException
    ensures r.Ok? ==> alias in r.value && r.value[alias] == TrustedCertificate(cert)
    ensures r.Ok? ==> r.value - {alias} == ks - {alias}
  {
    if alias in ks && !ks[alias].TrustedCertificate? then Throws(KeyStoreException)
    else Ok(ks[alias := TrustedCertificate(cert)])
  }

  /**
   * The constructor: opens the key store (`loaded` is its contents, or what `load` threw),
   * parses the root certificate resource, stores it under "bootstrap" and builds the trust
   * manager factory over the store.
   */
  function NewBootstrapManager(identity: string, loaded: Outcome<KeyStore>, rootDer: Bytes, parse: Bytes -> Outcome<X509>): (r: Outcome<BootstrapManager>)
    ensures r.Ok? <==>
      && loaded.Ok? && parse(rootDer).Ok?
      && (BOOTSTRAP_ROOT_ALIAS in loaded.value ==> loaded.value[BOOTSTRAP_ROOT_ALIAS].TrustedCertificate?)
    ensures loaded.Throws? ==> r == Throws(loaded.exception)
    ensures loaded.Ok? && parse(rootDer).Throws? ==> r == Throws(parse(rootDer).exception)
    // `setCertificateEntry` refuses to overwrite a key entry stored under "bootstrap"
    ensures loaded.Ok? && parse(rootDer).Ok? ==>
      ((BOOTSTRAP_ROOT_ALIAS in loaded.value && !loaded.value[BOOTSTRAP_ROOT_ALIAS].TrustedCertificate?)
         ==> r == Throws(KeyStoreException))
    ensures r.Ok? ==>
      && Valid(r.value)
      && !r.value.bootstrapSuccess
      && r.value.identity == identity
      && r.value.sslContext == None
      && r.value.keyStore[BOOTSTRAP_ROOT_ALIAS] == TrustedCertificate(parse(rootDer).value)
      && parse(rootDer).value in TrustedCertificates(r.value.keyStore)
      && r.value.keyStore - {BOOTSTRAP_ROOT_ALIAS} == loaded.value - {BOOTSTRAP_ROOT_ALIAS}
  {
    match loaded
    case Throws(e) => Throws(e)
    case Ok(ks) =>
      match parse(rootDer)
      case Throws(e) => Throws(e)
      case Ok(root) =>
        match SetCertificateEntry(ks, BOOTSTRAP_ROOT_ALIAS, root)
        case Throws(e) => Throws(e)
        case Ok(store) => Ok(BootstrapManager(identity, store, None, false))
  }

  /** `isBootstrapSuccess()`. */
  function IsBootstrapSuccess(m: BootstrapManager): bool {
    m.bootstrapSuccess
  }

  /** `KeyStore.getKey(alias, null)`: the private key under `alias`, or null when the alias is
      missing or names a trusted-certificate entry. */
  function GetKey(ks: KeyStore, alias: string): (k: Option<PrivateKey>)
    ensures k.Some? <==> alias in ks && ks[alias].PrivateKeyEntry?
    ensures k.Some? ==> ks[alias] == PrivateKeyEntry(k.value, ks[alias].chain)
  {
    if alias in ks && ks[alias].PrivateKeyEntry? then Some(ks[alias].key) else None
  }

  /**
   * `storeSignedCertificate`: parses the returned certificate and re-installs, under "gw_key",
   * the private key already stored there with a chain of exactly that one certificate. A null
   * key (no key entry under "gw_key") makes `setKeyEntry` throw.
   */
  function StoreSignedCertificate(ks: KeyStore, certificate: SignedCertificate, parse: Bytes -> Outcome<X509>): (r: Outcome<KeyStore>)
    ensures r.Ok? <==> parse(certificate.certDer).Ok? && GetKey(ks, GW_KEY_ALIAS).Some?
    ensures parse(certificate.certDer).Throws? ==> r == Throws(parse(certificate.certDer).exception)
    ensures parse(certificate.certDer).Ok? && GetKey(ks, GW_KEY_ALIAS).None? ==> r == Throws(KeyStoreException)
    ensures r.Ok? ==>
      && GW_KEY_ALIAS in r.value
      && r.value[GW_KEY_ALIAS].PrivateKeyEntry?
      && GetKey(r.value, GW_KEY_ALIAS) == GetKey(ks, GW_KEY_ALIAS)
      && r.value[GW_KEY_ALIAS].chain == [parse(certificate.certDer).value]
      && r.value - {GW_KEY_ALIAS} == ks - {GW_KEY_ALIAS}
  {
    match parse(certificate.certDer)
    case Throws(e) => Throws(e)
    case Ok(cert) =>
      match GetKey(ks, GW_KEY_ALIAS)
      case None => Throws(KeyStoreException)
      case Some(privateKey) => Ok(ks[GW_KEY_ALIAS := PrivateKeyEntry(privateKey, [cert])])
  }

  /** One action of the flow, in the order the flow performs them. */
  datatype Step =
    | RequestChallenge(gatewayId: AccessGatewayId)
    | DeriveRandS(challenge: Challenge)
    | GenerateKeyPair(alias: string)
    | EncodeCsr(csr: Csr)
    | RequestSign(response: ChallengeResponse)
    | InstallCertificate(certificate: SignedCertificate)
    | SetSuccessFlag

  const STEP_COUNT := 7

  /** The position of a step in the protocol. */
  function StepIndex(step: Step): (i: nat)
    ensures i < STEP_COUNT
  {
    match step
    case RequestChallenge(_) => 0
    case DeriveRandS(_) => 1
    case GenerateKeyPair(_) => 2
    case EncodeCsr(_) => 3
    case RequestSign(_) => 4
    case InstallCertificate(_) => 5
    case SetSuccessFlag => 6
  }

  /** A trace that performs the protocol's steps in order from the first, skipping none. */
  predicate InProtocolOrder(trace: seq<Step>) {
    forall i :: 0 <= i < |trace| ==> StepIndex(trace[i]) == i
  }

  /** A Java call's outcome with its value dropped: what matters is whether it threw, and what. */
  function Status<T>(o: Outcome<T>): (r: Outcome<()>)
    ensures r.Ok? <==> o.Ok?
    ensures o.Throws? ==> r.exception == o.exception
  {
    match o
    case Ok(_) => Ok(())
    case Throws(e) => Throws(e)
  }

  /**
   * How a step ends, judged from the collaborators alone. Installing the certificate is judged
   * by its parse: within the flow a gateway key is always present then, so the parse's
   * exception is the only one the install can throw.
   */
  function StepOutcome(env: Collaborators, channel: Channel, step: Step): Outcome<()> {
    match step
    case RequestChallenge(id) => Status(env.getChallenge(channel, id))
    case DeriveRandS(ch) => Status(env.getRandS(ch))
    case GenerateKeyPair(alias) => Status(env.generateKeyPair(alias))
    case EncodeCsr(csr) => Status(env.encodeCsr(csr))
    case RequestSign(response) => Status(env.requestSign(channel, response))
    case InstallCertificate(cert) => Status(env.parseCertificate(cert.certDer))
    case SetSuccessFlag => Ok(())
  }

  /** Whether a step returns normally. */
  predicate Returns(env: Collaborators, channel: Channel, step: Step) {
    StepOutcome(env, channel, step).Ok?
  }

  /** One `bootstrapNow` call: the manager afterwards, the bootstrap channel, the steps it
      started (the last one is the one that threw, if any) and how it ended. */
  datatype Attempt = Attempt(manager: BootstrapManager, channel: Channel, trace: seq<Step>, outcome: Outcome<()>)

  /** The SSL context of the bootstrap channel: no client key managers, and the trust managers
      `getTrustManagers()` builds from the key store as it is when the call starts. */
  function BootstrapTls(m: BootstrapManager): (tls: TlsContext)
    ensures tls.clientKeys == None
    ensures Valid(m) ==> m.keyStore[BOOTSTRAP_ROOT_ALIAS].cert in tls.trustAnchors
    ensures forall c :: c in tls.trustAnchors ==> exists a :: a in m.keyStore && EntryCertificate(m.keyStore[a]) == Some(c)
  {
    TlsContext(None, TrustedCertificates(m.keyStore))
  }

  /** The response a flow sends: same UUID, the fixed window, the CSR bytes and r/s. */
  predicate BindsChallenge(response: ChallengeResponse, identity: string, challenge: Challenge, rands: RandS, csrDer: Bytes) {
    && response.hwId == identity
    && response.challenge == challenge
    && response.windowStart == RESPONSE_WINDOW_START
    && response.windowLength == RESPONSE_WINDOW_LENGTH
    && response.csr == csrDer
    && response.r == rands.r
    && response.s == rands.s
  }

  /** `bootstrapNow(controllerAddress, controllerPort)`. */
  function BootstrapNow(m: BootstrapManager, address: string, port: int, env: Collaborators): (run: Attempt)
    // the steps run in protocol order; the flow stops at the first one that throws
    ensures 1 <= |run.trace| <= STEP_COUNT && InProtocolOrder(run.trace)
    ensures run.outcome.Ok? <==> |run.trace| == STEP_COUNT
    // the flag is set exactly when every step returned, and never cleared
    ensures run.manager.bootstrapSuccess <==> m.bootstrapSuccess || run.outcome.Ok?
    // the channel trusts the store's certificates as the call finds them and presents no client key
    ensures run.channel == Channel(address, port, BootstrapTls(m))
    ensures run.manager.sslContext == Some(run.channel.tls)
    ensures run.manager.identity == m.identity
  {
    var tls := BootstrapTls(m);
    var m := m.(sslContext := Some(tls));
    var channel := Channel(address, port, tls);
    var s0 := RequestChallenge(AccessGatewayId(m.identity));
    match env.getChallenge(channel, s0.gatewayId)
    case Throws(e) => Attempt(m, channel, [s0], Throws(e))
    case Ok(challenge) =>
      var s1 := DeriveRandS(challenge);
      match env.getRandS(challenge)
      case Throws(e) => Attempt(m, channel, [s0, s1], Throws(e))
      case Ok(rands) =>
        var s2 := GenerateKeyPair(GW_KEY_ALIAS);
        match env.generateKeyPair(GW_KEY_ALIAS)
        case Throws(e) =>
          var m := if env.keygenFailureClears then m.(keyStore := m.keyStore - {GW_KEY_ALIAS}) else m;
          Attempt(m, channel, [s0, s1, s2], Throws(e))
        case Ok(keyPair) =>
          var m := m.(keyStore := m.keyStore[GW_KEY_ALIAS := PrivateKeyEntry(keyPair.privateKey, [keyPair.selfSigned])]);
          var s3 := EncodeCsr(Csr(keyPair.publicKey, m.identity));
          match env.encodeCsr(s3.csr)
          case Throws(e) => Attempt(m, channel, [s0, s1, s2, s3], Throws(e))
          case Ok(csrDer) =>
            var s4 := RequestSign(ChallengeResponse(m.identity, challenge, RESPONSE_WINDOW_START, RESPONSE_WINDOW_LENGTH, csrDer, rands.r, rands.s));
            match env.requestSign(channel, s4.response)
            case Throws(e) => Attempt(m, channel, [s0, s1, s2, s3, s4], Throws(e))
            case Ok(certificate) =>
              var s5 := InstallCertificate(certificate);
              match StoreSignedCertificate(m.keyStore, certificate, env.parseCertificate)
              case Throws(e) => Attempt(m, channel, [s0, s1, s2, s3, s4, s5], Throws(e))
              case Ok(ks) =>
                Attempt(m.(keyStore := ks, bootstrapSuccess := true), channel, [s0, s1, s2, s3, s4, s5, SetSuccessFlag], Ok(()))
  }

  /** Every step before the last returned normally: a step is started only after all earlier
      ones returned. */
  lemma EarlierStepsReturned(m: BootstrapManager, address: string, port: int, env: Collaborators)
    ensures var run := BootstrapNow(m, address, port, env);
      forall i :: 0 <= i < |run.trace| - 1 ==> Returns(env, run.channel, run.trace[i])
  {
  }

  /** The attempt throws exactly when its last started step does not return: the first throw
      ends the attempt, and an attempt that ends normally ran every step. */
  lemma StopsAtFirstThrow(m: BootstrapManager, address: string, port: int, env: Collaborators)
    ensures var run := BootstrapNow(m, address, port, env);
      run.outcome.Throws? <==> !Returns(env, run.channel, run.trace[|run.trace| - 1])
    // the call ends as its last step ended: a thrown exception propagates unchanged
    ensures var run := BootstrapNow(m, address, port, env);
      run.outcome == StepOutcome(env, run.channel, run.trace[|run.trace| - 1])
  {
    var channel := Channel(address, port, BootstrapTls(m));
    match env.getChallenge(channel, AccessGatewayId(m.identity))
    case Throws(_) =>
    case Ok(challenge) =>
      match env.getRandS(challenge)
      case Throws(_) =>
      case Ok(rands) =>
        match env.generateKeyPair(GW_KEY_ALIAS)
        case Throws(_) =>
        case Ok(keyPair) =>
          var generated := m.keyStore[GW_KEY_ALIAS := PrivateKeyEntry(keyPair.privateKey, [keyPair.selfSigned])];
          assert GetKey(generated, GW_KEY_ALIAS).Some?;
  }

  /** The challenge is requested for the device's UUID, and the response binds that UUID, the
      received challenge, the fixed window 0/10000, the CSR bytes and exactly that challenge's
      r and s. */
  lemma ResponseBinding(m: BootstrapManager, address: string, port: int, env: Collaborators)
    ensures var run := BootstrapNow(m, address, port, env);
      run.trace[0] == RequestChallenge(AccessGatewayId(m.identity))
    ensures var run := BootstrapNow(m, address, port, env);
      |run.trace| > 4 ==>
        && run.trace[1].DeriveRandS? && run.trace[3].EncodeCsr? && run.trace[4].RequestSign?
        && env.getChallenge(run.channel, AccessGatewayId(m.identity)) == Ok(run.trace[1].challenge)
        && env.getRandS(run.trace[1].challenge).Ok?
        && env.encodeCsr(run.trace[3].csr).Ok?
        && run.trace[3].csr.identity == m.identity
        && BindsChallenge(run.trace[4].response, m.identity, run.trace[1].challenge,
                          env.getRandS(run.trace[1].challenge).value, env.encodeCsr(run.trace[3].csr).value)
  {
  }

  /** An attempt that gets past key generation generated a pair under "gw_key", whose private
      key is now stored there; the CSR names the device and certifies that pair's public key;
      the certificate installed is the one `requestSign` returned, and on success "gw_key"
      holds the new key with that certificate as its whole chain. */
  lemma GatewayKeyInstalled(m: BootstrapManager, address: string, port: int, env: Collaborators)
    ensures var run := BootstrapNow(m, address, port, env);
      |run.trace| > 2 ==> run.trace[2] == GenerateKeyPair(GW_KEY_ALIAS)
    ensures var run := BootstrapNow(m, address, port, env);
      |run.trace| > 3 ==>
        && env.generateKeyPair(GW_KEY_ALIAS).Ok?
        && run.trace[3] == EncodeCsr(Csr(env.generateKeyPair(GW_KEY_ALIAS).value.publicKey, m.identity))
        && GetKey(run.manager.keyStore, GW_KEY_ALIAS) == Some(env.generateKeyPair(GW_KEY_ALIAS).value.privateKey)
    // the certificate the flow installs is exactly the signer's reply to its response
    ensures var run := BootstrapNow(m, address, port, env);
      |run.trace| > 5 ==>
        && run.trace[4].RequestSign? && run.trace[5].InstallCertificate?
        && env.requestSign(run.channel, run.trace[4].response) == Ok(run.trace[5].certificate)
    ensures var run := BootstrapNow(m, address, port, env);
      run.outcome.Ok? ==>
        && run.trace[5].InstallCertificate?
        && env.parseCertificate(run.trace[5].certificate.certDer).Ok?
        && run.manager.keyStore[GW_KEY_ALIAS] == PrivateKeyEntry(
             env.generateKeyPair(GW_KEY_ALIAS).value.privateKey,
             [env.parseCertificate(run.trace[5].certificate.certDer).value])
  {
  }

  /** The key-store half of `OnlyGatewayAliasWritten`, proved from the flow's branches. */
  lemma KeyStoreFrame(m: BootstrapManager, address: string, port: int, env: Collaborators)
    ensures var run := BootstrapNow(m, address, port, env);
      run.manager.keyStore - {GW_KEY_ALIAS} == m.keyStore - {GW_KEY_ALIAS}
    ensures var run := BootstrapNow(m, address, port, env);
      |run.trace| <= 2 && run.outcome.Throws? ==> run.manager.keyStore == m.keyStore
    ensures var run := BootstrapNow(m, address, port, env);
      |run.trace| == 3 && run.outcome.Throws? ==>
        run.manager.keyStore == if env.keygenFailureClears then m.keyStore - {GW_KEY_ALIAS} else m.keyStore
  {
    var channel := Channel(address, port, BootstrapTls(m));
    match env.getChallenge(channel, AccessGatewayId(m.identity))
    case Throws(_) =>
    case Ok(challenge) =>
      match env.getRandS(challenge)
      case Throws(_) =>
      case Ok(rands) =>
        match env.generateKeyPair(GW_KEY_ALIAS)
        case Throws(_) =>
          assert m.keyStore - {GW_KEY_ALIAS} - {GW_KEY_ALIAS} == m.keyStore - {GW_KEY_ALIAS};
        case Ok(keyPair) =>
          var generated := m.keyStore[GW_KEY_ALIAS := PrivateKeyEntry(keyPair.privateKey, [keyPair.selfSigned])];
          assert generated - {GW_KEY_ALIAS} == m.keyStore - {GW_KEY_ALIAS};
  }

  /** The flow writes no alias but "gw_key" and keeps the stored root in place, so the next
      call's channel still trusts it. A call that throws before key generation changes nothing;
      one whose key generation throws leaves "gw_key" as it was or, when the generator clears
      the alias on failure, removes it, so a signed credential from an earlier call is lost. */
  lemma OnlyGatewayAliasWritten(m: BootstrapManager, address: string, port: int, env: Collaborators)
    ensures var run := BootstrapNow(m, address, port, env);
      run.manager.keyStore - {GW_KEY_ALIAS} == m.keyStore - {GW_KEY_ALIAS}
    ensures var run := BootstrapNow(m, address, port, env);
      |run.trace| <= 2 && run.outcome.Throws? ==> run.manager.keyStore == m.keyStore
    ensures var run := BootstrapNow(m, address, port, env);
      |run.trace| == 3 && run.outcome.Throws? ==>
        run.manager.keyStore == if env.keygenFailureClears then m.keyStore - {GW_KEY_ALIAS} else m.keyStore
    ensures Valid(m) ==> Valid(BootstrapNow(m, address, port, env).manager)
  {
    KeyStoreFrame(m, address, port, env);
    var after := BootstrapNow(m, address, port, env).manager.keyStore;
    if Valid(m) {
      assert BOOTSTRAP_ROOT_ALIAS in m.keyStore - {GW_KEY_ALIAS};
      assert (after - {GW_KEY_ALIAS})[BOOTSTRAP_ROOT_ALIAS] == after[BOOTSTRAP_ROOT_ALIAS];
    }
  }

  /** A retry's channel also trusts whatever certificate "gw_key" holds when it starts: after a
      success that is the signed gateway certificate, after a failed retry the self-signed one. */
  lemma RetryTrustsGatewayCertificate(m: BootstrapManager, address: string, port: int, env: Collaborators)
    requires GW_KEY_ALIAS in m.keyStore && m.keyStore[GW_KEY_ALIAS].PrivateKeyEntry?
    requires |m.keyStore[GW_KEY_ALIAS].chain| > 0
    ensures m.keyStore[GW_KEY_ALIAS].chain[0] in BootstrapNow(m, address, port, env).channel.tls.trustAnchors
  {
  }

  /** After a successful call the next call's channel trusts the signed gateway certificate. */
  lemma SignedCertificateTrustedNext(m: BootstrapManager, address: string, port: int, env: Collaborators)
    requires BootstrapNow(m, address, port, env).outcome.Ok?
    ensures var run := BootstrapNow(m, address, port, env);
      env.parseCertificate(run.trace[5].certificate.certDer).Ok?
      && env.parseCertificate(run.trace[5].certificate.certDer).value in BootstrapTls(run.manager).trustAnchors
  {
    GatewayKeyInstalled(m, address, port, env);
  }

  /** A failed attempt after key generation leaves the new, unsigned gateway key under
      "gw_key" (chained only to its self-signed certificate) and leaves the flag as it was:
      a manager that once succeeded still reports success. */
  lemma FailedRetryKeepsFlag(m: BootstrapManager, address: string, port: int, env: Collaborators)
    requires m.bootstrapSuccess
    requires BootstrapNow(m, address, port, env).outcome.Throws?
    requires |BootstrapNow(m, address, port, env).trace| > 3
    ensures IsBootstrapSuccess(BootstrapNow(m, address, port, env).manager)
    ensures env.generateKeyPair(GW_KEY_ALIAS).Ok?
    ensures var keyPair := env.generateKeyPair(GW_KEY_ALIAS).value;
      BootstrapNow(m, address, port, env).manager.keyStore[GW_KEY_ALIAS]
        == PrivateKeyEntry(keyPair.privateKey, [keyPair.selfSigned])
  {
  }

  /** A retry whose key generation throws, on a generator that clears the alias on failure,
      leaves no entry at all under "gw_key", yet a manager that once succeeded still reports
      success. */
  lemma FailedKeygenLosesCredential(m: BootstrapManager, address: string, port: int, env: Collaborators)
    requires m.bootstrapSuccess && env.keygenFailureClears
    requires BootstrapNow(m, address, port, env).outcome.Throws?
    requires |BootstrapNow(m, address, port, env).trace| == 3
    ensures IsBootstrapSuccess(BootstrapNow(m, address, port, env).manager)
    ensures GW_KEY_ALIAS !in BootstrapNow(m, address, port, env).manager.keyStore
  {
    KeyStoreFrame(m, address, port, env);
  }

  /** The arguments of one `bootstrapNow` call and what its collaborators do. */
  datatype Call = Call(address: string, port: int, env: Collaborators)

  /** Successive `bootstrapNow` calls on one manager: the manager afterwards and how each
      call ended. */
  function Session(m: BootstrapManager, calls: seq<Call>): (res: (BootstrapManager, seq<Outcome<()>>))
    ensures |res.1| == |calls|
    ensures res.0.identity == m.identity
    ensures res.0.keyStore - {GW_KEY_ALIAS} == m.keyStore - {GW_KEY_ALIAS}
    decreases |calls|
  {
    if |calls| == 0 then (m, [])
    else
      var run := BootstrapNow(m, calls[0].address, calls[0].port, calls[0].env);
      OnlyGatewayAliasWritten(m, calls[0].address, calls[0].port, calls[0].env);
      var rest := Session(run.manager, calls[1..]);
      (rest.0, [run.outcome] + rest.1)
  }

  /** After any sequence of calls the flag is set exactly when it was set before or some call
      completed every step; no call ever clears it. */
  lemma {:induction false} SessionFlag(m: BootstrapManager, calls: seq<Call>)
    ensures Session(m, calls).0.bootstrapSuccess
      <==> m.bootstrapSuccess || exists i :: 0 <= i < |calls| && Session(m, calls).1[i].Ok?
    decreases |calls|
  {
    if |calls| > 0 {
      var run := BootstrapNow(m, calls[0].address, calls[0].port, calls[0].env);
      SessionFlag(run.manager, calls[1..]);
      var res := Session(m, calls);
      var rest := Session(run.manager, calls[1..]);
      assert res.0 == rest.0 && res.1 == [run.outcome] + rest.1;
      assert run.manager.bootstrapSuccess <==> m.bootstrapSuccess || res.1[0].Ok?;
      if exists i :: 0 <= i < |calls| && res.1[i].Ok? {
        var i :| 0 <= i < |calls| && res.1[i].Ok?;
        if i > 0 {
          assert rest.1[i - 1].Ok?;
        }
      }
      if exists j :: 0 <= j < |calls| - 1 && rest.1[j].Ok? {
        var j :| 0 <= j < |calls| - 1 && rest.1[j].Ok?;
        assert res.1[j + 1].Ok?;
      }
    }
  }

  /** On a freshly constructed manager `isBootstrapSuccess()` is false until some
      `bootstrapNow` call completes, and true from then on. */
  lemma FreshManagerFlag(identity: string, loaded: Outcome<KeyStore>, rootDer: Bytes, parse: Bytes -> Outcome<X509>, m: BootstrapManager, calls: seq<Call>)
    requires NewBootstrapManager(identity, loaded, rootDer, parse) == Ok(m)
    ensures !IsBootstrapSuccess(m)
    ensures IsBootstrapSuccess(Session(m, calls).0) <==> exists i :: 0 <= i < |calls| && Session(m, calls).1[i].Ok?
  {
    SessionFlag(m, calls);
  }

  /** Every call of a session keeps the root certificate stored and trusted. */
  lemma SessionValid(m: BootstrapManager, calls: seq<Call>)
    requires Valid(m)
    ensures Valid(Session(m, calls).0)
  {
    var after := Session(m, calls).0.keyStore;
    assert BOOTSTRAP_ROOT_ALIAS in m.keyStore - {GW_KEY_ALIAS};
    assert (after - {GW_KEY_ALIAS})[BOOTSTRAP_ROOT_ALIAS] == after[BOOTSTRAP_ROOT_ALIAS];
  }

  /** The flow writes only "gw_key", never the hardware key's alias "". */
  lemma HardwareKeyUntouched(m: BootstrapManager, address: string, port: int, env: Collaborators)
    ensures HW_KEY_ALIAS != GW_KEY_ALIAS
    ensures var after := BootstrapNow(m, address, port, env).manager.keyStore;
      && (HW_KEY_ALIAS in m.keyStore <==> HW_KEY_ALIAS in after)
      && (HW_KEY_ALIAS in m.keyStore ==> after[HW_KEY_ALIAS] == m.keyStore[HW_KEY_ALIAS])
  {
    KeyStoreFrame(m, address, port, env);
    var after := BootstrapNow(m, address, port, env).manager.keyStore;
    assert HW_KEY_ALIAS in m.keyStore - {GW_KEY_ALIAS} <==> HW_KEY_ALIAS in after - {GW_KEY_ALIAS};
  }

  /** Installing the same signed certificate again changes nothing: the key is re-used and the
      chain is already that one certificate. */
  lemma StoreIdempotent(ks: KeyStore, certificate: SignedCertificate, parse: Bytes -> Outcome<X509>)
    requires StoreSignedCertificate(ks, certificate, parse).Ok?
    ensures var once := StoreSignedCertificate(ks, certificate, parse).value;
      StoreSignedCertificate(once, certificate, parse) == Ok(once)
  {
    var once := StoreSignedCertificate(ks, certificate, parse).value;
    assert once[GW_KEY_ALIAS := once[GW_KEY_ALIAS]] == once;
  }
}

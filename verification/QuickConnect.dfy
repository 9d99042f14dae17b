/** quick-connect: login, verification, validation, minting and retrying until a client
    token is in place, then a background renewer beside the VPN. The backend, the clock and
    the disk answer as they like: every answer is an event, and any sequence of events is a
    run. A token is compared without surrounding white space. A read of the file and a
    write, whole or torn, are one step each. */
module QuickConnect {
  import opened Text
  import opened TokenFile

  // The options after trimming and environment defaults. clientId stands for parseClientID.
  datatype Config = Config(
    userAuth: string, password: string, code: string, jwtOpt: string,
    forceJwt: bool, renew: bool, clientId: string -> string)

  // ---------- Answers of the backend ----------

  datatype ApiLogin = LoginError | VerificationRequired | LoginNetwork(byJwt: string) | NoNetwork

  datatype ApiVerify = VerifyError | VerifyNetwork(byJwt: string) | NoVerifyNetwork

  datatype ApiMint = MintError | ClientJwt(jwt: string)

  datatype LoginResult = LoginFailed | NeedsCode | LoggedIn(byJwt: string)

  // The wrappers around the API turn a blank token into an error.
  function LoginWithPassword(a: ApiLogin): LoginResult {
    match a
    case VerificationRequired => NeedsCode
    case LoginNetwork(network) => if TrimSpace(network) == "" then LoginFailed else LoggedIn(network)
    case _ => LoginFailed
  }

  function VerifyCode(a: ApiVerify): Option<string> {
    match a
    case VerifyNetwork(network) => if TrimSpace(network) == "" then None else Some(network)
    case _ => None
  }

  function MintClientJwt(a: ApiMint): Option<string> {
    match a
    case ClientJwt(jwt) => if TrimSpace(jwt) == "" then None else Some(jwt)
    case MintError => None
  }

  datatype Answer =
    | Login(login: ApiLogin)
    | Verify(verify: ApiVerify)
    | Mint(mint: ApiMint)
    | Validate(valid: bool)
    | Save(result: WriteResult)
    | Tick    // time passes, or a step that needs no answer
    | Cancel

  // ---------- States ----------

  datatype MainPc =
    | Begin
    | LoginCall
    | SaveLogin(network: string)
    | VerifyCall
    | SaveVerified(network: string)
    | LoadToken
    | ValidateExisting(jwt: string)
    | RetryLogin
    | RetryMint(network: string)
    | RetrySave(client: string)
    | RetryValidate(client: string)
    | Pause
    | MintCall(jwt: string)
    | SaveMinted(client: string)
    | FinalLoad
    | Vpn(token: string, writer: Writer)
    | Exit

  datatype RenewerPc = Off | Idle | RMint(jwt: string) | RLogin | RMintBy(network: string) | RSave(client: string)

  // How the client token was obtained.
  datatype Origin = Undecided | Existing | Refreshed | Minted

  // Who gave the file its content: nobody in this run, the main thread, the renewer, or
  // a write that was torn.
  datatype Writer = Nobody | Setup | Renewal | TornWrite

  // The file and the histories: what passed validation, what was minted, what the main
  // thread and the renewer saved.
  datatype State = State(
    main: MainPc, renewer: RenewerPc, file: Option<string>, writer: Writer, origin: Origin,
    validated: set<string>, minted: set<string>, saves: seq<string>, renewals: seq<string>)

  function Start(file: Option<string>): State { State(Begin, Off, file, Nobody, Undecided, {}, {}, [], []) }

  // A save by the main thread (Setup) or the renewer (Renewal).
  function Write(s: State, who: Writer, jwt: string, result: WriteResult): State {
    var t := s.(file := After(s.file, jwt, result));
    match result
    case Refused => t
    case Torn(_) => t.(writer := TornWrite)
    case Done =>
      if who == Renewal then t.(writer := who, renewals := s.renewals + [TrimSpace(jwt)])
      else t.(writer := who, saves := s.saves + [TrimSpace(jwt)])
  }

  // ---------- The main thread ----------

  function MainStep(c: Config, s: State, a: Answer): State {
    match (s.main, a)
    case (Begin, Tick) =>
      if c.userAuth == "" && c.password == "" then s.(main := LoadToken)
      else if c.userAuth == "" || c.password == "" then s.(main := Exit)
      else s.(main := LoginCall)
    case (LoginCall, Login(l)) =>
      (match LoginWithPassword(l)
       case LoginFailed => s.(main := Exit)
       case NeedsCode => s.(main := if c.code == "" then Exit else VerifyCall)
       case LoggedIn(network) => s.(main := SaveLogin(network)))
    case (SaveLogin(network), Save(r)) =>
      Write(s, Setup, network, r).(main := if r != Done then Exit else if c.code != "" then VerifyCall else LoadToken)
    case (VerifyCall, Verify(v)) =>
      (match VerifyCode(v)
       case None => s.(main := Exit)
       case Some(network) => s.(main := SaveVerified(network)))
    case (SaveVerified(network), Save(r)) =>
      Write(s, Setup, network, r).(main := if r == Done then LoadToken else Exit)
    case (LoadToken, Tick) =>
      (match Load(c.jwtOpt, s.file)
       case None => s.(main := Exit)
       case Some(jwt) =>
         s.(main := if c.clientId(jwt) != "" && !c.forceJwt then ValidateExisting(jwt) else MintCall(jwt)))
    case (ValidateExisting(jwt), Validate(valid)) =>
      if valid then Ready(c, s.(validated := s.validated + {TrimSpace(jwt)}), Existing)
      else s.(main := if c.userAuth == "" || c.password == "" then Exit else RetryLogin)
    case (RetryLogin, Login(l)) =>
      (match LoginWithPassword(l)
       case LoggedIn(network) => s.(main := RetryMint(network))
       case _ => s.(main := Pause))
    case (RetryMint(_), Mint(m)) =>
      (match MintClientJwt(m)
       case None => s.(main := Pause)
       case Some(client) => s.(main := RetrySave(client), minted := s.minted + {TrimSpace(client)}))
    case (RetrySave(client), Save(r)) =>
      Write(s, Setup, client, r).(main := if r == Done then RetryValidate(client) else Pause)
    case (RetryValidate(client), Validate(valid)) =>
      if valid then Ready(c, s.(validated := s.validated + {TrimSpace(client)}), Refreshed)
      else s.(main := Pause)
    case (Pause, Tick) => s.(main := RetryLogin)
    case (Pause, Cancel) => s.(main := Exit)
    case (MintCall(_), Mint(m)) =>
      (match MintClientJwt(m)
       case None => s.(main := Exit)
       case Some(client) => s.(main := SaveMinted(client), minted := s.minted + {TrimSpace(client)}))
    case (SaveMinted(client), Save(r)) =>
      var n := Write(s, Setup, client, r);
      if r == Done then Ready(c, n, Minted) else n.(main := Exit)
    case (FinalLoad, Tick) =>
      (match Load("", s.file)
       case None => s.(main := Exit)
       case Some(token) => s.(main := Vpn(token, s.writer)))
    case (Vpn(_, _), Cancel) => s.(main := Exit)
    case _ => s
  }

  // A client token is in place: the renewer starts, and the final load comes next.
  function Ready(c: Config, s: State, origin: Origin): State {
    s.(main := FinalLoad, origin := origin, renewer := if c.renew then Idle else Off)
  }

  // ---------- The renewer ----------

  function RenewerStep(c: Config, s: State, a: Answer): State {
    match (s.renewer, a)
    case (Idle, Tick) =>
      (match Load("", s.file)
       case None => s
       case Some(jwt) => s.(renewer := RMint(jwt)))
    case (Idle, Cancel) => if s.main.Exit? then s.(renewer := Off) else s
    case (RMint(_), Mint(m)) =>
      (match MintClientJwt(m)
       case Some(client) => s.(renewer := RSave(client), minted := s.minted + {TrimSpace(client)})
       case None => s.(renewer := if c.userAuth != "" && c.password != "" then RLogin else Idle))
    case (RLogin, Login(l)) =>
      (match LoginWithPassword(l)
       case LoggedIn(network) => s.(renewer := RMintBy(network))
       case _ => s.(renewer := Idle))
    case (RMintBy(_), Mint(m)) =>
      (match MintClientJwt(m)
       case Some(client) => s.(renewer := RSave(client), minted := s.minted + {TrimSpace(client)})
       case None => s.(renewer := Idle))
    case (RSave(client), Save(r)) => Write(s, Renewal, client, r).(renewer := Idle)
    case _ => s
  }

  datatype Event = MainEvent(answer: Answer) | RenewerEvent(answer: Answer)

  function Next(c: Config, s: State, e: Event): State {
    match e
    case MainEvent(a) => MainStep(c, s, a)
    case RenewerEvent(a) => RenewerStep(c, s, a)
  }

  function Run(c: Config, s: State, events: seq<Event>): State
    decreases |events|
  {
    if events == [] then s else Run(c, Next(c, s, events[0]), events[1..])
  }

  // ---------- The invariant ----------

  ghost predicate Vouched(s: State, token: string) { token in s.validated || token in s.minted }

  // What the file would load as.
  ghost predicate Holds(s: State, token: string) { Load("", s.file) == Some(token) }

  ghost predicate SavesAreTokens(s: State) { 
    && (forall t :: t in s.saves ==> t != "" && Trimmed(t))
    && (forall t :: t in s.renewals ==> t != "" && Trimmed(t))
  }

  ghost predicate Pending(s: State, client: string) { TrimSpace(client) != "" && TrimSpace(client) in s.minted }

  ghost predicate InSetup(s: State) { !s.main.FinalLoad? && !s.main.Vpn? && !s.main.Exit? }

  // The token came from --jwt, was valid, and was therefore never written to the file.
  ghost predicate Borrowed(c: Config, s: State) { s.origin == Existing && TrimSpace(c.jwtOpt) != "" }

  // Content of this origin is a token that was validated or minted.
  ghost predicate Reliable(c: Config, s: State, w: Writer) {
    w == Renewal || (w != TornWrite && !Borrowed(c, s))
  }

  ghost predicate Inv(c: Config, s: State) {
    && SavesAreTokens(s)
    && (InSetup(s) ==> s.origin == Undecided && s.renewer == Off && s.writer != Renewal)
    && (s.renewer != Off ==> c.renew)
    && (s.renewer.RSave? ==> Pending(s, s.renewer.client))
    && (s.main.SaveLogin? || s.main.SaveVerified? ==> TrimSpace(s.main.network) != "")
    && (s.main.ValidateExisting? ==>
          Load(c.jwtOpt, s.file) == Some(s.main.jwt) && Trimmed(s.main.jwt))
    && (s.main.RetrySave? || s.main.SaveMinted? || s.main.RetryValidate? ==> Pending(s, s.main.client))
    && (s.main.RetryValidate? ==> Holds(s, TrimSpace(s.main.client)))
    && (s.main.FinalLoad? || s.main.Vpn? ==> s.origin != Undecided)
    && (s.main.FinalLoad? && Reliable(c, s, s.writer) ==> exists t :: Holds(s, t) && Vouched(s, t))
    && (s.main.Vpn? && Reliable(c, s, s.main.writer) ==> Vouched(s, s.main.token))
  }

  lemma WriteHolds(s: State, who: Writer, jwt: string)
    requires SavesAreTokens(s) && TrimSpace(jwt) != ""
    ensures var n := Write(s, who, jwt, Done); Holds(n, TrimSpace(jwt)) && SavesAreTokens(n)
  {
    LoadAfterSave(jwt);
    TrimSpaceTrims(jwt);
  }

  lemma LoadIsTrimmed(maybe: string, content: Option<string>)
    ensures Load(maybe, content).Some? ==> Trimmed(Load(maybe, content).value)
    ensures Load(maybe, content) == if TrimSpace(maybe) == "" then Load("", content) else Some(TrimSpace(maybe))
  {
    TrimSpaceTrims(maybe);
    TrimSpaceTrims("");
    if content.Some? {
      TrimSpaceTrims(content.value);
    }
  }

  // The main thread's steps, phase by phase.
  predicate LoggingIn(s: State) {
    s.main.Begin? || s.main.LoginCall? || s.main.SaveLogin? || s.main.VerifyCall? || s.main.SaveVerified?
  }

  predicate Retrying(s: State) {
    s.main.RetryLogin? || s.main.RetryMint? || s.main.RetrySave? || s.main.RetryValidate? || s.main.Pause?
  }

  lemma LoggingInKeeps(c: Config, s: State, a: Answer)
    requires Inv(c, s) && LoggingIn(s)
    ensures Inv(c, MainStep(c, s, a))
  {
    hide TrimSpace, Trimmed, Load, Saved, After;
    match (s.main, a)
    case (SaveLogin(network), Save(r)) => WriteHolds(s, Setup, network);
    case (SaveVerified(network), Save(r)) => WriteHolds(s, Setup, network);
    case _ =>
  }

  lemma RetryingKeeps(c: Config, s: State, a: Answer)
    requires Inv(c, s) && Retrying(s)
    ensures Inv(c, MainStep(c, s, a))
  {
    hide TrimSpace, Trimmed, Load, Saved, After;
    var n := MainStep(c, s, a);
    match (s.main, a)
    case (RetrySave(client), Save(r)) => WriteHolds(s, Setup, client);
    case (RetryValidate(client), Validate(valid)) =>
      assert valid ==> Holds(n, TrimSpace(client)) && Vouched(n, TrimSpace(client));
    case _ =>
  }

  lemma TokenInPlaceKeeps(c: Config, s: State, a: Answer)
    requires Inv(c, s) && !LoggingIn(s) && !Retrying(s)
    ensures Inv(c, MainStep(c, s, a))
  {
    hide TrimSpace, Trimmed, Load, Saved, After;
    var n := MainStep(c, s, a);
    match (s.main, a)
    case (LoadToken, Tick) => LoadIsTrimmed(c.jwtOpt, s.file);
    case (ValidateExisting(jwt), Validate(valid)) =>
      LoadIsTrimmed(c.jwtOpt, s.file);
      TrimSpaceTrims(jwt);
      assert valid && !Borrowed(c, n) ==> Holds(n, jwt) && Vouched(n, jwt);
    case (SaveMinted(client), Save(r)) =>
      WriteHolds(s, Setup, client);
      assert r == Done ==> Holds(n, TrimSpace(client)) && Vouched(n, TrimSpace(client));
    case _ =>
  }

  lemma MainKeeps(c: Config, s: State, a: Answer)
    requires Inv(c, s)
    ensures Inv(c, MainStep(c, s, a))
  {
    hide Inv, MainStep;
    if LoggingIn(s) {
      LoggingInKeeps(c, s, a);
    } else if Retrying(s) {
      RetryingKeeps(c, s, a);
    } else {
      TokenInPlaceKeeps(c, s, a);
    }
  }

  lemma RenewerKeeps(c: Config, s: State, a: Answer)
    requires Inv(c, s)
    ensures Inv(c, RenewerStep(c, s, a))
  {
    hide TrimSpace, Trimmed, Load, Saved;
    var n := RenewerStep(c, s, a);
    if s.renewer.RSave? {
      WriteHolds(s, Renewal, s.renewer.client);
      assert a == Save(Done) ==> Holds(n, TrimSpace(s.renewer.client)) && Vouched(n, TrimSpace(s.renewer.client));
    }
    if s.main.FinalLoad? && Reliable(c, s, s.writer) && n.file == s.file {
      var t :| Holds(s, t) && Vouched(s, t);
      assert Holds(n, t) && Vouched(n, t);
    }
  }

  lemma {:induction false} RunKeeps(c: Config, s: State, events: seq<Event>)
    requires Inv(c, s)
    ensures Inv(c, Run(c, s, events))
    decreases |events|
  {
    if events != [] {
      match events[0] {
        case MainEvent(a) => MainKeeps(c, s, a);
        case RenewerEvent(a) => RenewerKeeps(c, s, a);
      }
      hide Inv;
      RunKeeps(c, Next(c, s, events[0]), events[1..]);
    }
  }

  // ---------- Token safety ----------

  // Over all answers and interleavings: only non-blank trimmed tokens are ever saved, and
  // the token that the VPN starts with was validated or minted in this run, unless it was
  // read from a torn write or --jwt was found valid and left the file as it was.
  lemma TokenSafety(c: Config, file: Option<string>, events: seq<Event>)
    ensures var s := Run(c, Start(file), events);
      && SavesAreTokens(s)
      && (s.main.Vpn? && Reliable(c, s, s.main.writer) ==> Vouched(s, s.main.token))
      && (s.main.Vpn? && TrimSpace(c.jwtOpt) == "" && s.main.writer != TornWrite ==> Vouched(s, s.main.token))
  {
    RunKeeps(c, Start(file), events);
  }

  // ---------- Torn writes ----------

  // The text is what a torn save of a minted token left.
  ghost predicate Fragment(s: State, text: string, client: string, n: nat) {
    TrimSpace(client) in s.minted && text == Cut(client, n)
  }

  // Only the renewer's torn writes live to the final load, and it saves minted tokens.
  ghost predicate TornInv(s: State) {
    && ((InSetup(s) && !Retrying(s)) || s.main.RetryValidate? ==> s.writer != TornWrite)
    && (s.main.FinalLoad? && s.writer == TornWrite ==>
          s.file.Some? && exists client, n :: Fragment(s, s.file.value, client, n))
    && (s.main.Vpn? && s.main.writer == TornWrite ==>
          exists text, client, n :: s.main.token == TrimSpace(text) && Fragment(s, text, client, n))
  }

  lemma MainKeepsTorn(c: Config, s: State, a: Answer)
    requires Inv(c, s) && TornInv(s)
    ensures TornInv(MainStep(c, s, a))
  {
    hide TrimSpace, Trimmed, Saved, Cut, LoginWithPassword, VerifyCode, MintClientJwt;
    var m := MainStep(c, s, a);
    if s.main.FinalLoad? && s.writer == TornWrite && a == Tick {
      TrimSpaceTrims("");
      var client, n :| Fragment(s, s.file.value, client, n);
      assert m.main.Vpn? ==> m.main.token == TrimSpace(s.file.value) && Fragment(m, s.file.value, client, n);
    } else if s.main.FinalLoad? && s.writer == TornWrite {
      assert m == s;
    } else if s.main.Vpn? {
      assert m.main == Exit || m == s;
    }
  }

  lemma RenewerKeepsTorn(c: Config, s: State, a: Answer)
    requires Inv(c, s) && TornInv(s)
    ensures TornInv(RenewerStep(c, s, a))
  {
    hide TrimSpace, Trimmed, Saved, Cut, Load, LoginWithPassword, VerifyCode, MintClientJwt;
    var m := RenewerStep(c, s, a);
    if s.main.Vpn? && s.main.writer == TornWrite {
      var text, client, n :| s.main.token == TrimSpace(text) && Fragment(s, text, client, n);
      assert Fragment(m, text, client, n);
    } else if s.main.FinalLoad? && m.writer == TornWrite {
      if s.renewer.RSave? && a.Save? && a.result.Torn? {
        assert Fragment(m, m.file.value, s.renewer.client, a.result.n);
      } else {
        var client, n :| Fragment(s, s.file.value, client, n);
        assert Fragment(m, s.file.value, client, n);
      }
    }
  }

  lemma {:induction false} RunKeepsTorn(c: Config, s: State, events: seq<Event>)
    requires Inv(c, s) && TornInv(s)
    ensures TornInv(Run(c, s, events))
    decreases |events|
  {
    if events != [] {
      hide Inv, TornInv, MainStep, RenewerStep;
      match events[0] {
        case MainEvent(a) =>
          MainKeeps(c, s, a);
          MainKeepsTorn(c, s, a);
        case RenewerEvent(a) =>
          RenewerKeeps(c, s, a);
          RenewerKeepsTorn(c, s, a);
      }
      RunKeepsTorn(c, Next(c, s, events[0]), events[1..]);
    }
  }

  // After a torn write the VPN starts with what its first n characters load as, for a token
  // that was minted in this run. That is vouched for when the write reached the token's
  // end; and only then, unless a proper prefix of the token happens to be a token too.
  ghost predicate TornOutcome(s: State, token: string, client: string, n: nat) {
    var whole := TrimSpace(client);
    && whole in s.minted && token == TrimSpace(Cut(client, n))
    && (n >= |whole| ==> token == whole && Vouched(s, token))
    && (n < |whole| ==> ProperPrefix(token, whole))
    && ((forall v :: Vouched(s, v) ==> !ProperPrefix(v, whole)) ==> (Vouched(s, token) <==> n >= |whole|))
  }

  lemma TornTokenIsCut(c: Config, file: Option<string>, events: seq<Event>)
    ensures var s := Run(c, Start(file), events);
      s.main.Vpn? && s.main.writer == TornWrite ==> exists client, n :: TornOutcome(s, s.main.token, client, n)
  {
    RunKeepsTorn(c, Start(file), events);
    var s := Run(c, Start(file), events);
    hide Run, TornOutcome, Fragment;
    if s.main.Vpn? && s.main.writer == TornWrite {
      var text, client, n :| s.main.token == TrimSpace(text) && Fragment(s, text, client, n);
      FragmentOutcome(s, text, client, n);
    }
  }

  lemma FragmentOutcome(s: State, text: string, client: string, n: nat)
    requires Fragment(s, text, client, n)
    ensures TornOutcome(s, TrimSpace(text), client, n)
  {
    hide TrimSpace, Cut;
    CutLoads(client, n);
  }

  // ---------- A valid --jwt is not the token that the VPN uses ----------

  // What the file loads as when only these tokens were saved to it.
  function LastWritten(file: Option<string>, saves: seq<string>): Option<string> {
    if saves == [] then Load("", file) else Some(saves[|saves| - 1])
  }

  // As long as only the main thread has written the file whole, it holds its last save.
  ghost predicate FileInv(file: Option<string>, s: State) {
    && (s.writer == Nobody || s.writer == Setup ==> Load("", s.file) == LastWritten(file, s.saves))
    && (s.main.Vpn? && (s.main.writer == Nobody || s.main.writer == Setup) ==>
          LastWritten(file, s.saves) == Some(s.main.token))
  }

  ghost predicate BeforeRetry(s: State) {
    || s.main.Begin? || s.main.LoginCall? || s.main.SaveLogin? || s.main.VerifyCall? || s.main.SaveVerified?
    || s.main.LoadToken? || s.main.ValidateExisting?
  }

  // What a run that ends with a borrowed token has in its histories.
  ghost predicate HistoryInv(c: Config, s: State) {
    && (InSetup(s) ==> s.renewer == Off && s.origin == Undecided)
    && (s.renewer != Off ==> c.renew)
    && (BeforeRetry(s) ==> s.minted == {} && s.validated == {})
    && (s.main.ValidateExisting? && TrimSpace(c.jwtOpt) != "" ==> s.main.jwt == TrimSpace(c.jwtOpt))
    && (Borrowed(c, s) ==> s.validated == {TrimSpace(c.jwtOpt)} && (!c.renew ==> s.minted == {}))
    && (s.main.LoginCall? || s.main.SaveLogin? || s.main.VerifyCall? || s.main.SaveVerified? ==> c.userAuth != "")
    && (InSetup(s) && !BeforeRetry(s) && !s.main.MintCall? && !s.main.SaveMinted? ==> c.userAuth != "")
    && (c.userAuth == "" && c.password == "" && (InSetup(s) || s.origin == Existing) ==> s.saves == [])
  }

  lemma SaveKeepsFile(file: Option<string>, s: State, who: Writer, jwt: string, r: WriteResult)
    requires FileInv(file, s) && !s.main.Vpn? && who != Nobody
    ensures FileInv(file, Write(s, who, jwt, r))
  {
    hide TrimSpace, Trimmed, Load, Saved;
    LoadAfterSave(jwt);
  }

  lemma MainKeepsFile(c: Config, file: Option<string>, s: State, a: Answer)
    requires FileInv(file, s)
    ensures FileInv(file, MainStep(c, s, a))
  {
    hide TrimSpace, Trimmed, Load, LastWritten, LoginWithPassword, VerifyCode, MintClientJwt, Write;
    match (s.main, a)
    case (SaveLogin(network), Save(r)) => SaveKeepsFile(file, s, Setup, network, r);
    case (SaveVerified(network), Save(r)) => SaveKeepsFile(file, s, Setup, network, r);
    case (RetrySave(client), Save(r)) => SaveKeepsFile(file, s, Setup, client, r);
    case (SaveMinted(client), Save(r)) => SaveKeepsFile(file, s, Setup, client, r);
    case _ =>
  }

  lemma RenewerKeepsFile(c: Config, file: Option<string>, s: State, a: Answer)
    requires FileInv(file, s)
    ensures FileInv(file, RenewerStep(c, s, a))
  {
    hide TrimSpace, Trimmed, Load, Saved, LastWritten, LoginWithPassword, VerifyCode, MintClientJwt;
  }

  lemma FileKeeps(c: Config, file: Option<string>, s: State, e: Event)
    requires FileInv(file, s) && HistoryInv(c, s)
    ensures FileInv(file, Next(c, s, e))
  {
    hide FileInv, MainStep, RenewerStep;
    match e
    case MainEvent(a) => MainKeepsFile(c, file, s, a);
    case RenewerEvent(a) => RenewerKeepsFile(c, file, s, a);
  }

  lemma MainKeepsHistory(c: Config, s: State, a: Answer)
    requires HistoryInv(c, s)
    ensures HistoryInv(c, MainStep(c, s, a))
  {
    hide TrimSpace, Trimmed, Load, Saved, After, LoginWithPassword, VerifyCode, MintClientJwt;
    if s.main.LoadToken? {
      LoadIsTrimmed(c.jwtOpt, s.file);
    } else if s.main.ValidateExisting? {
      TrimSpaceTrims(c.jwtOpt);
      TrimSpaceTrims(s.main.jwt);
    }
  }

  lemma RenewerKeepsHistory(c: Config, s: State, a: Answer)
    requires HistoryInv(c, s)
    ensures HistoryInv(c, RenewerStep(c, s, a))
  {
    hide TrimSpace, Trimmed, Load, Saved, After, LoginWithPassword, VerifyCode, MintClientJwt;
  }

  lemma HistoryKeeps(c: Config, s: State, e: Event)
    requires HistoryInv(c, s)
    ensures HistoryInv(c, Next(c, s, e))
  {
    hide HistoryInv, MainStep, RenewerStep;
    match e
    case MainEvent(a) => MainKeepsHistory(c, s, a);
    case RenewerEvent(a) => RenewerKeepsHistory(c, s, a);
  }

  lemma {:induction false} RunKnowsFile(c: Config, file: Option<string>, s: State, events: seq<Event>)
    requires FileInv(file, s) && HistoryInv(c, s)
    ensures FileInv(file, Run(c, s, events)) && HistoryInv(c, Run(c, s, events))
    decreases |events|
  {
    if events != [] {
      hide FileInv, HistoryInv, Next;
      FileKeeps(c, file, s, events[0]);
      HistoryKeeps(c, s, events[0]);
      RunKnowsFile(c, file, Next(c, s, events[0]), events[1..]);
    }
  }

  // A run that found --jwt valid starts the VPN with what the main thread last saved, or
  // with what the file held from the start, unless the renewer wrote it before. That token
  // is vouched for exactly when it is the --jwt token itself, or happens to have been
  // minted by the renewer meanwhile, which without renewal cannot be.
  lemma BorrowedIsVouchedIff(c: Config, file: Option<string>, events: seq<Event>)
    ensures var s := Run(c, Start(file), events);
      s.main.Vpn? && Borrowed(c, s) && (s.main.writer == Nobody || s.main.writer == Setup) ==>
        && LastWritten(file, s.saves) == Some(s.main.token)
        && (Vouched(s, s.main.token) <==> s.main.token == TrimSpace(c.jwtOpt) || s.main.token in s.minted)
        && (!c.renew ==> s.minted == {})
  {
    hide TrimSpace, Trimmed, Saved, Run;
    RunKnowsFile(c, file, Start(file), events);
  }

  // With no credentials the main thread saves nothing, so the file must have held the
  // --jwt token before.
  lemma BorrowedWithoutLogin(c: Config, file: Option<string>, events: seq<Event>)
    requires c.userAuth == "" && c.password == ""
    ensures var s := Run(c, Start(file), events);
      s.main.Vpn? && Borrowed(c, s) && (s.main.writer == Nobody || s.main.writer == Setup) && s.minted == {} ==>
        (Vouched(s, s.main.token) <==> Load("", file) == Some(TrimSpace(c.jwtOpt)))
  {
    hide TrimSpace, Trimmed, Saved, Run;
    RunKnowsFile(c, file, Start(file), events);
  }

  // ---------- Runs that end badly ----------

  ghost predicate Reachable(c: Config, file: Option<string>, s: State) { exists events :: Run(c, Start(file), events) == s }

  lemma {:induction false} RunOneMore(c: Config, s: State, events: seq<Event>, e: Event)
    ensures Run(c, s, events + [e]) == Next(c, Run(c, s, events), e)
    decreases |events|
  {
    hide Next;
    if events == [] {
      assert [e][1..] == [];
    } else {
      RunOneMore(c, Next(c, s, events[0]), events[1..], e);
      assert (events + [e])[1..] == events[1..] + [e];
    }
  }

  lemma Step(c: Config, file: Option<string>, s: State, e: Event)
    requires Reachable(c, file, s)
    ensures Reachable(c, file, Next(c, s, e))
  {
    var events :| Run(c, Start(file), events) == s;
    RunOneMore(c, Start(file), events, e);
  }

  // The main thread up to the final load, for a client token that is valid as it is.
  lemma ValidTokenRun(c: Config, file: Option<string>, token: string) returns (s: State)
    requires c.userAuth == "" && c.password == "" && !c.forceJwt
    requires Load(c.jwtOpt, file) == Some(token) && c.clientId(token) != ""
    ensures s == Ready(c, Start(file).(validated := {TrimSpace(token)}), Existing)
    ensures Reachable(c, file, s)
  {
    hide TrimSpace, Load;
    s := Start(file);
    assert Run(c, s, []) == s;
    Step(c, file, s, MainEvent(Tick));
    s := s.(main := LoadToken);
    Step(c, file, s, MainEvent(Tick));
    s := s.(main := ValidateExisting(token));
    Step(c, file, s, MainEvent(Validate(true)));
    s := Ready(c, Start(file).(validated := {TrimSpace(token)}), Existing);
  }

  lemma Letters()
    ensures TrimSpace("a") == "a" && TrimSpace("b") == "b" && TrimSpace("t") == "t"
    ensures TrimSpace("") == "" && TrimSpace("token") == "token"
  {
    TrimSpaceTrims("a");
    TrimSpaceTrims("b");
    TrimSpaceTrims("t");
    TrimSpaceTrims("");
    TrimSpaceTrims("token");
    hide TrimSpace;
    assert Trimmed("a") && Trimmed("b") && Trimmed("t") && Trimmed("token") && Blank("");
  }

  // --jwt is "a" and valid, the file holds "b", and the VPN starts with "b".
  lemma ValidJwtIsIgnored(c: Config)
    requires c == Config("", "", "", "a", false, false, (_: string) => "id")
    ensures exists s :: Reachable(c, Some("b"), s) && s.main == Vpn("b", Nobody) && s.validated == {"a"} && !Vouched(s, "b")
  {
    Letters();
    hide TrimSpace;
    var s := ValidTokenRun(c, Some("b"), "a");
    Step(c, Some("b"), s, MainEvent(Tick));
    var n := Next(c, s, MainEvent(Tick));
    assert n.main == Vpn("b", Nobody) && !Vouched(n, "b");
  }

  // The file holds "b", which is valid. The renewer mints "token", its save is cut off
  // after the first letter, and the VPN starts with "t".
  lemma TornRenewalReachesVpn(c: Config)
    requires c == Config("", "", "", "", false, true, (_: string) => "id")
    ensures exists s :: Reachable(c, Some("b"), s) && s.main == Vpn("t", TornWrite) && !Vouched(s, "t")
  {
    Letters();
    hide TrimSpace;
    var s := ValidTokenRun(c, Some("b"), "b");
    Step(c, Some("b"), s, RenewerEvent(Tick));
    s := s.(renewer := RMint("b"));
    Step(c, Some("b"), s, RenewerEvent(Mint(ClientJwt("token"))));
    s := s.(renewer := RSave("token"), minted := {"token"});
    Step(c, Some("b"), s, RenewerEvent(Save(Torn(1))));
    assert Saved("token")[..1] == "t";
    s := s.(renewer := Idle, file := Some("t"), writer := TornWrite);
    Step(c, Some("b"), s, MainEvent(Tick));
    var n := Next(c, s, MainEvent(Tick));
    assert n.main == Vpn("t", TornWrite) && !Vouched(n, "t");
  }

  // ---------- What every run goes through ----------

  ghost predicate PastLogin(c: Config, s: State) {
    && ((c.userAuth == "") != (c.password == "") ==> s.main.Begin? || s.main.Exit?)
    && (c.userAuth != "" && c.password != "" && !LoggingIn(s) && !s.main.Exit? ==> s.saves != [])
  }

  ghost predicate MintedIfForced(c: Config, s: State) {
    && (c.forceJwt ==> !s.main.ValidateExisting? && !Retrying(s) && s.origin in {Undecided, Minted})
    && (s.main.SaveMinted? ==> s.minted != {})
    && (s.main.FinalLoad? || s.main.Vpn? ==> s.origin != Undecided)
    && (s.origin == Minted ==> s.minted != {})
  }

  ghost predicate PathInv(c: Config, s: State) { PastLogin(c, s) && MintedIfForced(c, s) }

  lemma MainKeepsLogin(c: Config, s: State, a: Answer)
    requires PastLogin(c, s)
    ensures PastLogin(c, MainStep(c, s, a))
  {
    hide TrimSpace, Load, After, LoginWithPassword, VerifyCode, MintClientJwt;
  }

  lemma MainKeepsMinted(c: Config, s: State, a: Answer)
    requires MintedIfForced(c, s)
    ensures MintedIfForced(c, MainStep(c, s, a))
  {
    hide TrimSpace, Load, After, LoginWithPassword, VerifyCode, MintClientJwt;
  }

  lemma RenewerKeepsPath(c: Config, s: State, a: Answer)
    requires PathInv(c, s)
    ensures PathInv(c, RenewerStep(c, s, a))
  {
    hide TrimSpace, Load, After, LoginWithPassword, MintClientJwt;
  }

  lemma PathKeeps(c: Config, s: State, e: Event)
    requires PathInv(c, s)
    ensures PathInv(c, Next(c, s, e))
  {
    hide MainStep, RenewerStep, PastLogin, MintedIfForced;
    match e
    case MainEvent(a) =>
      MainKeepsLogin(c, s, a);
      MainKeepsMinted(c, s, a);
    case RenewerEvent(a) =>
      hide PathInv;
      RenewerKeepsPath(c, s, a);
  }

  lemma {:induction false} RunKeepsPath(c: Config, s: State, events: seq<Event>)
    requires PathInv(c, s)
    ensures PathInv(c, Run(c, s, events))
    decreases |events|
  {
    if events != [] {
      hide PathInv, Next;
      PathKeeps(c, s, events[0]);
      RunKeepsPath(c, Next(c, s, events[0]), events[1..]);
    }
  }

  // A run that gets to the VPN was not started with one credential alone; with both it has
  // logged in or verified, and saved the token of that; and if minting was forced, it has
  // minted.
  lemma VpnNeeds(c: Config, file: Option<string>, events: seq<Event>)
    ensures var s := Run(c, Start(file), events); s.main.Vpn? ==>
      && (c.userAuth == "" <==> c.password == "")
      && (c.userAuth != "" ==> s.saves != [])
      && (c.forceJwt ==> s.origin == Minted && s.minted != {})
  {
    RunKeepsPath(c, Start(file), events);
    hide Run;
  }

  // ---------- Step by step, with the answers that it takes ----------

  // Logging in saves the network's token; a code has it verified before going on.
  lemma LoginSaves(c: Config, s: State, network: string)
    requires s.main == Begin && c.userAuth != "" && c.password != "" && TrimSpace(network) != ""
    ensures var n := MainStep(c, MainStep(c, MainStep(c, s, Tick), Login(LoginNetwork(network))), Save(Done));
      && n.file == Some(TrimSpace(network) + "\n") && n.saves == s.saves + [TrimSpace(network)]
      && n.main == if c.code == "" then LoadToken else VerifyCall
  {
    hide TrimSpace;
  }

  // If verification is required, only a code leads on.
  lemma VerificationNeedsCode(c: Config, s: State)
    requires s.main == LoginCall
    ensures MainStep(c, s, Login(VerificationRequired)).main == if c.code == "" then Exit else VerifyCall
    ensures MainStep(c, s, Login(LoginError)).main == Exit && MainStep(c, s, Login(NoNetwork)).main == Exit
  {
  }

  lemma VerifyingSaves(c: Config, s: State, network: string)
    requires s.main == VerifyCall && TrimSpace(network) != ""
    ensures var n := MainStep(c, MainStep(c, s, Verify(VerifyNetwork(network))), Save(Done));
      && n.main == LoadToken
      && n.file == Some(TrimSpace(network) + "\n") && n.saves == s.saves + [TrimSpace(network)]
    ensures MainStep(c, s, Verify(VerifyError)).main == Exit && MainStep(c, s, Verify(NoVerifyNetwork)).main == Exit
  {
    hide TrimSpace;
  }

  // --jwt goes before the file; a token that is no client token, or any if minting is
  // forced, is exchanged for one, and the others are validated.
  lemma LoadedIsMintedOrValidated(c: Config, s: State)
    requires s.main == LoadToken && (TrimSpace(c.jwtOpt) != "" || s.file.Some?)
    ensures var token := if TrimSpace(c.jwtOpt) != "" then TrimSpace(c.jwtOpt) else TrimSpace(s.file.value);
      MainStep(c, s, Tick).main ==
        if c.forceJwt || c.clientId(token) == "" then MintCall(token) else ValidateExisting(token)
  {
    hide TrimSpace;
  }

  // Minting saves the client token and starts the VPN with it.
  lemma MintingLeadsToVpn(c: Config, s: State, token: string, client: string)
    requires s.main == MintCall(token) && TrimSpace(client) != ""
    ensures var n := MainStep(c, MainStep(c, MainStep(c, s, Mint(ClientJwt(client))), Save(Done)), Tick);
      n.main == Vpn(TrimSpace(client), Setup) && n.origin == Minted && n.file == Some(TrimSpace(client) + "\n")
    ensures MainStep(c, s, Mint(MintError)).main == Exit
  {
    LoadAfterSave(client);
    hide TrimSpace, Load;
  }

  // An invalid client token is replaced through the credentials, if there are any.
  lemma RetryLeadsToVpn(c: Config, s: State, network: string, client: string)
    requires s.main == RetryLogin && TrimSpace(network) != "" && TrimSpace(client) != ""
    ensures
      var saved := MainStep(c, MainStep(c, MainStep(c, s, Login(LoginNetwork(network))), Mint(ClientJwt(client))), Save(Done));
      var n := MainStep(c, MainStep(c, saved, Validate(true)), Tick);
      && saved.main == RetryValidate(client) && saved.file == Some(TrimSpace(client) + "\n")
      && n.main == Vpn(TrimSpace(client), Setup) && n.origin == Refreshed
  {
    LoadAfterSave(client);
    hide TrimSpace, Load;
  }

  lemma InvalidNeedsCredentials(c: Config, s: State, token: string)
    requires s.main == ValidateExisting(token)
    ensures MainStep(c, s, Validate(false)).main == if c.userAuth != "" && c.password != "" then RetryLogin else Exit
    ensures MainStep(c, s, Validate(true)).main == FinalLoad
  {
    hide TrimSpace;
  }

  // Whatever fails on the way, the next attempt follows after a pause, until cancelled.
  lemma RetryGoesOn(c: Config, s: State, a: Answer)
    requires
      || (s.main.RetryLogin? && a in {Login(LoginError), Login(VerificationRequired), Login(NoNetwork)})
      || (s.main.RetryMint? && a == Mint(MintError))
      || (s.main.RetrySave? && a == Save(Refused))
      || (s.main.RetryValidate? && a == Validate(false))
    ensures MainStep(c, MainStep(c, s, a), Tick).main == RetryLogin
    ensures MainStep(c, MainStep(c, s, a), Cancel).main == Exit
  {
    hide TrimSpace;
  }

  // The renewer exchanges the token of the file for a new one.
  lemma RenewsByMinting(c: Config, s: State, text: string, client: string)
    requires s.renewer == Idle && s.file == Some(text) && TrimSpace(client) != ""
    ensures var n := RenewerStep(c, RenewerStep(c, RenewerStep(c, s, Tick), Mint(ClientJwt(client))), Save(Done));
      && RenewerStep(c, s, Tick).renewer == RMint(TrimSpace(text))
      && n.renewer == Idle && n.main == s.main
      && n.file == Some(TrimSpace(client) + "\n") && n.renewals == s.renewals + [TrimSpace(client)]
  {
    TrimSpaceTrims("");
    hide TrimSpace;
  }

  // If that fails, it logs in again, provided it can; and after any failure it waits for
  // the next time.
  lemma RenewsByLogin(c: Config, s: State, token: string, network: string, client: string)
    requires s.renewer == RMint(token) && TrimSpace(network) != "" && TrimSpace(client) != ""
    requires c.userAuth != "" && c.password != ""
    ensures
      var failed := RenewerStep(c, s, Mint(MintError));
      var n := RenewerStep(c, RenewerStep(c, RenewerStep(c, failed, Login(LoginNetwork(network))), Mint(ClientJwt(client))), Save(Done));
      && failed.renewer == RLogin
      && n.renewer == Idle && n.main == s.main
      && n.file == Some(TrimSpace(client) + "\n") && n.renewals == s.renewals + [TrimSpace(client)]
  {
    hide TrimSpace;
  }

  lemma RenewerGoesOn(c: Config, s: State, a: Answer)
    requires
      || (s.renewer.RMint? && a == Mint(MintError) && (c.userAuth == "" || c.password == ""))
      || (s.renewer.RLogin? && a in {Login(LoginError), Login(VerificationRequired), Login(NoNetwork)})
      || (s.renewer.RMintBy? && a == Mint(MintError))
      || (s.renewer.RSave? && a == Save(Refused))
    ensures RenewerStep(c, s, a) == s.(renewer := Idle)
  {
  }

  // It runs from the moment a client token is in place, if renewal is asked for, and is
  // stopped when the VPN is over.
  lemma RenewerStartsAndStops(c: Config, s: State, origin: Origin)
    ensures Ready(c, s, origin).renewer == (if c.renew then Idle else Off) && Ready(c, s, origin).main == FinalLoad
    ensures s.renewer == Idle && s.main == Exit ==> RenewerStep(c, s, Cancel).renewer == Off
  {
  }

  // A blank token from the backend is as good as an error.
  lemma BlankTokensAreErrors(blank: string)
    requires TrimSpace(blank) == ""
    ensures LoginWithPassword(LoginNetwork(blank)) == LoginWithPassword(LoginError)
    ensures VerifyCode(VerifyNetwork(blank)) == VerifyCode(VerifyError)
    ensures MintClientJwt(ClientJwt(blank)) == MintClientJwt(MintError)
  {
    hide TrimSpace;
  }

  // A save that fails before the client token is in place, and a token that cannot be read
  // in the end, end the run; so does cancelling the VPN.
  lemma RunEnds(c: Config, s: State, r: WriteResult)
    requires r != Done
    ensures s.main.SaveLogin? || s.main.SaveVerified? || s.main.SaveMinted? ==> MainStep(c, s, Save(r)).main == Exit
    ensures s.main.LoadToken? && TrimSpace(c.jwtOpt) == "" && s.file == None ==> MainStep(c, s, Tick).main == Exit
    ensures s.main.FinalLoad? && s.file == None ==> MainStep(c, s, Tick).main == Exit
    ensures s.main.Vpn? ==> MainStep(c, s, Cancel).main == Exit
  {
    TrimSpaceTrims("");
    hide TrimSpace, After;
  }
}

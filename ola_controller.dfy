/**
 * The REST controller of the "ola" service, as far as it takes part in a two-phase-commit
 * transaction: the chained greeting that starts, enlists in and commits a transaction, the
 * coordinator's terminate callback, and the participant-info callback that rebuilds this
 * participant's link header from the request URL.
 */
module OlaController {
  import opened Wrappers
  import opened JavaLang
  import opened UriPattern
  import opened Collaborators

  const TxCoordinator := "http://wildfly-rts:8080"
  const TxCoordinatorUrl := TxCoordinator + "/rest-at-coordinator/tx/transaction-manager"

  /** The base URI this service advertises to the coordinator for its participant endpoints. */
  const ParticipantHost := "http://ola:8080"
  const ParticipantBaseUri := ParticipantHost + "/api"

  /** The fixed part of the greeting, spelled as the controller's source spells it. */
  const GreetingPrefix := "Ol\U{221A}\U{B0} de "
  const UnknownHost := "Unknown"

  // ---------------------------------------------------------------- GET /api/ola

  /** The greeting, for the value of the HOSTNAME environment variable (`None` when unset). */
  function Ola(hostname: Option<string>): (greeting: string)
    ensures |greeting| >= |GreetingPrefix| && greeting[..|GreetingPrefix|] == GreetingPrefix
  {
    GreetingPrefix + hostname.GetOr(UnknownHost)
  }

  /** Reads the host name back out of a greeting. */
  function HostnameOf(greeting: string): Option<string> {
    if |greeting| >= |GreetingPrefix| && greeting[..|GreetingPrefix|] == GreetingPrefix
    then Some(greeting[|GreetingPrefix|..])
    else None
  }

  /** The greeting names the host, and "Unknown" when HOSTNAME is unset. */
  lemma OlaNamesHost(hostname: Option<string>)
    ensures HostnameOf(Ola(hostname)) == Some(hostname.GetOr(UnknownHost))
    ensures hostname.None? ==> Ola(hostname) == GreetingPrefix + "Unknown"
  {
  }

  // ---------------------------------------------------------------- GET /api/ola-chaining

  /**
   * `Integer.toString(new Random().nextInt(Integer.MAX_VALUE) + 1)`, where `draw` is the value
   * `nextInt` returned (it promises `0 <= draw < Integer.MAX_VALUE`). The `+ 1` is Java `int`
   * addition; it cannot wrap here.
   */
  function ParticipantUid(draw: int): (uid: string)
    requires 0 <= draw < IntMaxValue
    ensures |uid| >= 1 && IsDigits(uid) && uid[0] != '0'
    ensures DecimalValue(uid) == draw + 1 && 1 <= DecimalValue(uid) <= IntMaxValue
    ensures SlashFree(uid) && LineFree(uid)
  {
    IntToString(AddInt32(draw, 1))
  }

  /** The link header this service enlists with: durable, at `ParticipantBaseUri`, with no transaction id. */
  function EnlistedHeader(uid: string): (h: LinkHeader)
    ensures h.uid == uid && !h.isVolatile && h.txId == None
    ensures |h.baseUri| >= 4 && h.baseUri[|h.baseUri| - 4..] == ApiLiteral
    ensures LineFree(h.baseUri[..|h.baseUri| - 4])
  {
    assert LineFree(ParticipantHost) by {
      forall i | 0 <= i < |ParticipantHost| ensures !IsLineTerminator(ParticipantHost[i]) {
        assert ParticipantHost[i] in "http://ola:8080";
      }
    }
    LinkHeader(ParticipantBaseUri, false, uid, None)
  }

  /**
   * One chained request: start a transaction, enlist this service in it, greet locally, call the
   * peer under the same transaction, commit, and answer with the local greeting followed by the
   * peer's. Commit is reached on every path.
   */
  method SayHelloChaining(net: Network, holaService: HolaService, hostname: Option<string>, draw: int)
    returns (greetings: seq<string>)
    requires holaService.net == net
    requires 0 <= draw < IntMaxValue
    modifies net
    ensures var start := Request.StartTx(Some(TxCoordinatorUrl));
      var txnUri := net.coordinatorReply(|old(net.sent)|, start);
      net.sent == old(net.sent) + [
        start,
        Request.EnlistParticipant(txnUri, EnlistedHeader(ParticipantUid(draw))),
        Request.Hola(txnUri),
        Request.CommitTx(txnUri)]
      && greetings == [Ola(hostname)] + holaService.peerReply(txnUri)
  {
    ghost var sent0 := net.sent;
    var txSupport := new TxSupport(net, Some(TxCoordinatorUrl));
    txSupport.StartTx();
    var enlistmentUri := txSupport.txnUri.value;
    assert net.sent == sent0 + [Request.StartTx(Some(TxCoordinatorUrl))];

    var participantUid := ParticipantUid(draw);
    var header := EnlistedHeader(participantUid);
    var enlister := new TxSupport(net, None);
    var participant := enlister.EnlistParticipant(enlistmentUri, header);
    ghost var sent1 := net.sent;

    var local := Ola(hostname);
    greetings := [];
    greetings := greetings + [local];
    assert greetings == [local];
    var peerGreetings := holaService.Hola(enlistmentUri);
    greetings := greetings + peerGreetings;
    ghost var sent2 := net.sent;
    assert sent2 == sent1 + [Request.Hola(enlistmentUri)];

    txSupport.CommitTx();
    assert net.sent == sent0 + [
      Request.StartTx(Some(TxCoordinatorUrl)),
      Request.EnlistParticipant(enlistmentUri, header),
      Request.Hola(enlistmentUri),
      Request.CommitTx(enlistmentUri)];
  }

  // ---------------------------------------------------------------- PUT /api/{wId}/terminator

  datatype TerminateResponse =
    | Ok(statusName: string)   // 200, the body rendered from the status name
    | BadRequest               // 400, no body

  /** The statuses a participant acts on: prepare, commit, commit-one-phase and abort. */
  predicate IsTerminationStatus(s: TxStatus) {
    s.isPrepare || s.isCommit || s.isCommitOnePhase || s.isAbort
  }

  /** The coordinator's callback; `toTxStatus` is the library's parser of the request body. */
  function Terminate(toTxStatus: string -> TxStatus, wId: string, body: string): (r: TerminateResponse)
    ensures r.Ok? <==> IsTerminationStatus(toTxStatus(body))
    ensures r.Ok? ==> r.statusName == toTxStatus(body).name
  {
    var status := toTxStatus(body);
    if status.isPrepare then Ok(status.name)
    else if status.isCommit || status.isCommitOnePhase then Ok(status.name)
    else if status.isAbort then Ok(status.name)
    else BadRequest
  }

  /** The answer depends on the body alone: `wId` is only logged, so a retried callback gets the same answer. */
  lemma TerminateIgnoresWId(toTxStatus: string -> TxStatus, wId1: string, wId2: string, body: string)
    ensures Terminate(toTxStatus, wId1, body) == Terminate(toTxStatus, wId2, body)
  {
  }

  // ---------------------------------------------------------------- HEAD /api/{pId}/participant

  datatype HeadResponse =
    | LinkOk(link: LinkHeader)   // 200 with a `Link` header, empty body
    | NoMatchFound               // `group(1)` throws IllegalStateException: the pattern did not match

  /**
   * The participant-info callback for the request URL `serviceUrl`: split it by the participant
   * pattern and advertise a durable participant at group 1 with id group 2.
   */
  function GetTerminator(wId: string, serviceUrl: string): (r: HeadResponse)
    ensures r.LinkOk? ==> IsSplit(serviceUrl, r.link.baseUri, r.link.uid)
    ensures r.LinkOk? ==> !r.link.isVolatile && r.link.txId == None
    ensures r.LinkOk? ==> forall base, pid :: IsSplit(serviceUrl, base, pid) ==> |base| <= |r.link.baseUri|
    ensures r.NoMatchFound? <==> forall base, pid :: !IsSplit(serviceUrl, base, pid)
  {
    GroupsNoneIff(serviceUrl);
    match Groups(serviceUrl)
    case Some((base, pid)) =>
      GroupsCharacterization(serviceUrl, base, pid);
      LinkOk(LinkHeader(base, false, pid, None))
    case None => NoMatchFound
  }

  /** The link header is built from the URL alone; the path variable is never read. */
  lemma GetTerminatorIgnoresWId(wId1: string, wId2: string, serviceUrl: string)
    ensures GetTerminator(wId1, serviceUrl) == GetTerminator(wId2, serviceUrl)
  {
  }

  /**
   * A HEAD request routed to `{prefix}/api/{pid}/participant` is answered with the link header for
   * exactly that base and that participant id.
   */
  lemma {:induction false} GetTerminatorOnRoutedUrl(wId: string, prefix: string, pid: string)
    requires LineFree(prefix) && SlashFree(pid)
    ensures GetTerminator(wId, prefix + "/api/" + pid + "/participant")
      == LinkOk(LinkHeader(prefix + "/api", false, pid, None))
  {
    RoutedUrlSplits(prefix, pid);
  }

  /**
   * The participant URL the coordinator derives from the header enlisted by `SayHelloChaining`
   * is answered with that same header.
   */
  lemma {:induction false} ParticipantInfoMatchesEnlistment(wId: string, draw: int)
    requires 0 <= draw < IntMaxValue
    ensures var header := EnlistedHeader(ParticipantUid(draw));
      GetTerminator(wId, header.baseUri + "/" + header.uid + "/participant") == LinkOk(header)
  {
    var uid := ParticipantUid(draw);
    assert LineFree(ParticipantHost) by {
      forall i | 0 <= i < |ParticipantHost| ensures !IsLineTerminator(ParticipantHost[i]) {
        assert ParticipantHost[i] in "http://ola:8080";
      }
    }
    assert ParticipantBaseUri + "/" + uid + "/participant" == ParticipantHost + "/api/" + uid + "/participant";
    GetTerminatorOnRoutedUrl(wId, ParticipantHost, uid);
  }
}

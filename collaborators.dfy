/**
 * The collaborators the controller drives, reduced to what it can observe of them: the REST
 * transaction library (`TxSupport`, `TxStatus`) and the downstream greeting client (`HolaService`).
 * Their internals live outside this model; what they answer is given by abstract functions and what
 * they send is recorded, in order, on one shared `Network`.
 */
module Collaborators {
  import opened Wrappers

  /**
   * A transaction status as the library parses it from a callback body. Only its name and the four
   * tests the controller asks are visible; the tests are independent flags, so nothing is assumed
   * about which statuses the library counts as which, nor that they exclude one another.
   */
  datatype TxStatus = TxStatus(name: string, isPrepare: bool, isCommit: bool, isCommitOnePhase: bool, isAbort: bool)

  /**
   * The arguments of `makeTwoPhaseAwareParticipantLinkHeader(baseURI, isVolatile, uid, txId)`: the
   * participant link descriptor. Its rendering as the text of a `Link` header belongs to the library.
   */
  datatype LinkHeader = LinkHeader(baseUri: string, isVolatile: bool, uid: string, txId: Option<string>)

  /** A request this service sends out, to the coordinator or to the downstream peer. */
  datatype Request =
    | StartTx(txManagerUrl: Option<string>)
    | EnlistParticipant(enlistmentUri: string, header: LinkHeader)
    | Hola(enlistmentUri: string)
    | CommitTx(txnUri: string)

  /** The outbound traffic of one service instance, with the coordinator's answers. */
  class Network {
    /** Every request sent so far, oldest first. */
    var sent: seq<Request>
    /** What the coordinator answers to the request sent at a given position of the traffic. */
    const coordinatorReply: (nat, Request) -> string

    constructor (coordinatorReply: (nat, Request) -> string)
      ensures sent == [] && this.coordinatorReply == coordinatorReply
    {
      sent := [];
      this.coordinatorReply := coordinatorReply;
    }

    /** Sends `req` to the coordinator and returns its answer. */
    method Exchange(req: Request) returns (reply: string)
      modifies this
      ensures sent == old(sent) + [req]
      ensures reply == coordinatorReply(|old(sent)|, req)
    {
      reply := coordinatorReply(|sent|, req);
      sent := sent + [req];
    }

    /** Sends `req` to a service whose answer the caller reads elsewhere. */
    method Send(req: Request)
      modifies this
      ensures sent == old(sent) + [req]
    {
      sent := sent + [req];
    }
  }

  /** The client side of the REST transaction protocol, one object per transaction it starts. */
  class TxSupport {
    const net: Network
    /** The transaction-manager endpoint; `None` for the library's default (the no-argument constructor). */
    const txManagerUrl: Option<string>
    /** The URI of the transaction this object started (`getTxnUri()`), `None` before `startTx`. */
    var txnUri: Option<string>

    constructor (net: Network, txManagerUrl: Option<string>)
      ensures this.net == net && this.txManagerUrl == txManagerUrl && txnUri == None
    {
      this.net := net;
      this.txManagerUrl := txManagerUrl;
      txnUri := None;
    }

    /** Asks the coordinator to begin a transaction and keeps the URI it answers with. */
    method StartTx()
      modifies this, net
      ensures net.sent == old(net.sent) + [Request.StartTx(txManagerUrl)]
      ensures txnUri == Some(net.coordinatorReply(|old(net.sent)|, Request.StartTx(txManagerUrl)))
    {
      var location := net.Exchange(Request.StartTx(txManagerUrl));
      txnUri := Some(location);
    }

    /** Registers a participant, described by `header`, with the transaction at `enlistmentUri`. */
    method EnlistParticipant(enlistmentUri: string, header: LinkHeader) returns (participant: string)
      modifies net
      ensures net.sent == old(net.sent) + [Request.EnlistParticipant(enlistmentUri, header)]
      ensures participant == net.coordinatorReply(|old(net.sent)|, Request.EnlistParticipant(enlistmentUri, header))
    {
      participant := net.Exchange(Request.EnlistParticipant(enlistmentUri, header));
    }

    /** Asks the coordinator to commit the transaction this object started. */
    method CommitTx()
      requires txnUri.Some?
      modifies net
      ensures net.sent == old(net.sent) + [Request.CommitTx(txnUri.value)]
    {
      var _ := net.Exchange(Request.CommitTx(txnUri.value));
    }
  }

  /** The client of the downstream peer service. */
  class HolaService {
    const net: Network
    /** The greetings the peer answers with, given the enlistment URI it is handed. */
    const peerReply: string -> seq<string>

    constructor (net: Network, peerReply: string -> seq<string>)
      ensures this.net == net && this.peerReply == peerReply
    {
      this.net := net;
      this.peerReply := peerReply;
    }

    method Hola(enlistmentUri: string) returns (greetings: seq<string>)
      modifies net
      ensures net.sent == old(net.sent) + [Request.Hola(enlistmentUri)]
      ensures greetings == peerReply(enlistmentUri)
    {
      net.Send(Request.Hola(enlistmentUri));
      greetings := peerReply(enlistmentUri);
    }
  }
}

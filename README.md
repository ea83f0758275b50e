# Ola: the two-phase-commit participant, modelled in Dafny

The "ola" demo microservice takes part in a REST two-phase-commit transaction with a peer
service. An external coordinator drives the transaction. This project models the part of
`OlaController` that carries that protocol:

- **`sayHelloChaining`** (`GET /api/ola-chaining`) starts a transaction and enlists this service
  with a durable participant link header. It then greets locally, calls the peer under the same
  transaction, commits, and returns the local greeting followed by the peer's greetings.
- **`terminate`** (`PUT /api/{wId}/terminator`) is the coordinator's callback. A prepare, commit,
  commit-one-phase or abort status is answered 200 with the status name. Any other status gets 400.
- **`getTerminator`** (`HEAD /api/{pId}/participant`) splits its own request URL with the
  case-insensitive pattern `^(.*/api)/([^/]*)/participant.*`. It answers with the link header built
  from group 1 (the base) and group 2 (the participant id).
- **`ola`** (`GET /api/ola`) builds the greeting from the host name.

Modules, one file each:

- `Wrappers` holds `Option`.
- `JavaLang` holds Java `int` addition with wrap-around and `Integer.toString`, with the decimal
  round trip proved.
- `UriPattern` models how Java's regex engine runs the participant pattern under `find()`. The
  anchored start, the greedy backtracking of `.*`, the line terminators that `.` refuses and
  ASCII-only case folding are all written out. It then proves that the split is sound, that it
  picks the longest qualifying group 1, that the result is unique, and exactly when it fails.
- `Collaborators` is the library side, seen from outside. `TxStatus` has a name and four
  independent tests. `LinkHeader` holds the arguments of
  `makeTwoPhaseAwareParticipantLinkHeader`. The classes `TxSupport` and `HolaService` record every
  outbound request on a shared `Network`. The coordinator's and the peer's answers are
  abstract functions.
- `OlaController` holds the four handlers. It also proves that the HEAD callback on the URL
  base + `/` + uid + `/participant`, built from the enlisted header, returns that same header.

Inputs that the source reads from its environment are parameters here:

- the `HOSTNAME` variable (`Option<string>`);
- the value `Random.nextInt(Integer.MAX_VALUE)` returned (`draw`, with the range that method
  promises);
- the request URL that `ServletUriComponentsBuilder` yields (`serviceUrl`);
- the library's parser of callback bodies (`toTxStatus`).

Facts about the source that the model keeps:

- `ola` formats `"Ol\U{221A}\U{B0} de %s"` (OlaController.java:64). The file holds the characters
  U+221A U+00B0 (`√°`) after `Ol`, and the model's greeting prefix is spelled the same way.
- `getTerminator` ignores the result of `find()` (:152), so `group(1)` throws
  `IllegalStateException` on a URL the pattern does not match (:154). The model returns
  `NoMatchFound` for that case.
- Group 1 is the longest prefix ending in `/api` (any case) that the rest of the pattern can
  follow. Anything may come after `/participant`.
- `terminate` keeps no per-participant state. Its answer is a function of the parsed status alone.

## Model

| member | source | states |
|---|---|---|
| `OlaController.Ola` | src/main/java/com/redhat/developers/msa/ola/OlaController.java:62-65 | the greeting starts with the fixed greeting text |
| `OlaController.OlaNamesHost` | src/main/java/com/redhat/developers/msa/ola/OlaController.java:63-64 | the rest of the greeting is the host name. It is "Unknown" when HOSTNAME is unset, so the host can be read back from the greeting |
| `JavaLang.AddInt32` | src/main/java/com/redhat/developers/msa/ola/OlaController.java:82 | Java `int` addition: the result is a 32-bit value congruent to the sum mod 2^32, and it equals the sum when no overflow occurs |
| `JavaLang.NatToDecimal` | src/main/java/com/redhat/developers/msa/ola/OlaController.java:82 | the decimal digits of a natural number: at least one digit, and a leading zero only for 0 |
| `JavaLang.DecimalRoundTrip` | src/main/java/com/redhat/developers/msa/ola/OlaController.java:82 | reading the digits `NatToDecimal` produces gives back the number |
| `JavaLang.IntToString` | src/main/java/com/redhat/developers/msa/ola/OlaController.java:82 | `Integer.toString`: a minus sign exactly for negative values, then the digits whose value is the magnitude. There is no leading zero after the sign or for positive values, and 0 gives `"0"` |
| `OlaController.ParticipantUid` | src/main/java/com/redhat/developers/msa/ola/OlaController.java:82 | the participant id is canonical decimal digits of draw + 1, a value in [1, 2^31-1]. It contains no slash and no line terminator |
| `Collaborators.TxSupport.StartTx` | src/main/java/com/redhat/developers/msa/ola/OlaController.java:80 | sends one start request to the transaction manager and keeps the transaction URI the coordinator answers with |
| `Collaborators.TxSupport.EnlistParticipant` | src/main/java/com/redhat/developers/msa/ola/OlaController.java:89 | sends one enlist request carrying the enlistment URI and the link header, and returns the coordinator's answer |
| `Collaborators.HolaService.Hola` | src/main/java/com/redhat/developers/msa/ola/OlaController.java:94 | sends one request to the peer with the enlistment URI and returns the peer's greetings for that URI |
| `Collaborators.TxSupport.CommitTx` | src/main/java/com/redhat/developers/msa/ola/OlaController.java:96 | sends one commit request for the transaction this object started |
| `OlaController.SayHelloChaining` | src/main/java/com/redhat/developers/msa/ola/OlaController.java:78-98 | the traffic is start, then enlist(txnUri, durable header at http://ola:8080/api with the drawn id and no transaction id), then hola(txnUri), then commit(txnUri), in that order, and nothing else. Commit is always reached. The result is the local greeting followed by the peer's greetings for txnUri |
| `OlaController.Terminate` | src/main/java/com/redhat/developers/msa/ola/OlaController.java:128-143 | 200 exactly when the parsed status is prepare, commit, commit-one-phase or abort, with the status name as the body. Otherwise 400 |
| `OlaController.TerminateIgnoresWId` | src/main/java/com/redhat/developers/msa/ola/OlaController.java:128-130 | the answer does not depend on the path variable, so a retried callback with the same body gets the same answer |
| `OlaController.EnlistedHeader` | src/main/java/com/redhat/developers/msa/ola/OlaController.java:83 | the enlisted header is durable, carries the given participant id and no transaction id, and has a base ending in `/api` after a prefix with no line terminator |
| `UriPattern.DotRun` | src/main/java/com/redhat/developers/msa/ola/OlaController.java:150 | how far the leading `.*` reaches: the prefix up to it has no line terminator, and what follows it, if anything, is one |
| `UriPattern.SegmentEnd` | src/main/java/com/redhat/developers/msa/ola/OlaController.java:150 | where `[^/]*` stops: the run from the start index is slash-free, and it ends at a `/` or at the end of the URL |
| `UriPattern.TryAt` | src/main/java/com/redhat/developers/msa/ola/OlaController.java:150 | the part of the pattern after group 1, tried with group 1 ending at a given index: a result is an occurrence of `/api/<seg>/participant` there, and any occurrence there is the result |
| `UriPattern.Backtrack` | src/main/java/com/redhat/developers/msa/ola/OlaController.java:150-152 | greedy backtracking of `(.*/api)`: a found match is an occurrence of `/api/<seg>/participant`, and no candidate position between it and the starting point is one. No result means no occurrence at or below the starting point |
| `UriPattern.Groups` | src/main/java/com/redhat/developers/msa/ola/OlaController.java:150-154 | a successful `find()` yields groups that form a qualifying split: the base ends in `/api` (any case) after a line-terminator-free prefix, then `/`, the slash-free id, and `/participant` (any case) |
| `UriPattern.SplitUnique` | src/main/java/com/redhat/developers/msa/ola/OlaController.java:150 | two qualifying splits with bases of the same length are equal, because `[^/]*` has only one way to reach `/participant` |
| `UriPattern.GroupsLongest` | src/main/java/com/redhat/developers/msa/ola/OlaController.java:150-152 | whenever any split qualifies, `find()` succeeds, and its group 1 is at least as long as that split's base |
| `UriPattern.GroupsCharacterization` | src/main/java/com/redhat/developers/msa/ola/OlaController.java:150-154 | the groups are (base, pid) exactly when (base, pid) qualifies and no qualifying split has a longer base |
| `UriPattern.GroupsNoneIff` | src/main/java/com/redhat/developers/msa/ola/OlaController.java:152-154 | `find()` fails exactly when no split qualifies |
| `UriPattern.NoOccurrenceFails` | src/main/java/com/redhat/developers/msa/ola/OlaController.java:150-154 | a URL containing no `/api/<seg>/participant` occurrence in any case fails to match |
| `UriPattern.FormSplits` | src/main/java/com/redhat/developers/msa/ola/OlaController.java:150-154 | take a URL P + `/api` + `/` + seg + `/participant` + T, with both literals in any case, seg slash-free and P free of line terminators. It matches, the base is at least as long as P + `/api` and ends in `/api`, the id is slash-free, base + `/` + id begins the URL, and `/participant` follows |
| `UriPattern.RoutedUrlSplits` | src/main/java/com/redhat/developers/msa/ola/OlaController.java:146-154 | the URL P + `/api/` + seg + `/participant` of a routed HEAD request splits into exactly P + `/api` and seg |
| `OlaController.GetTerminator` | src/main/java/com/redhat/developers/msa/ola/OlaController.java:149-157 | answers with a durable link header with no transaction id, whose base and id form the qualifying split with the longest base. When no split qualifies, the answer is the no-match failure |
| `OlaController.GetTerminatorIgnoresWId` | src/main/java/com/redhat/developers/msa/ola/OlaController.java:148-154 | the path variable is never read: the header comes from the request URL alone |
| `OlaController.GetTerminatorOnRoutedUrl` | src/main/java/com/redhat/developers/msa/ola/OlaController.java:146-154 | a HEAD request on P + `/api/` + pid + `/participant` gets the link header for base P + `/api` and id pid |
| `OlaController.ParticipantInfoMatchesEnlistment` | src/main/java/com/redhat/developers/msa/ola/OlaController.java:83-154 | the HEAD callback on base + `/` + id + `/participant`, built from the header enlisted at :83, answers with that same header |

## Left out

- `TxSupport` internals are not modelled. This covers the text format of the `Link` header, the
  parsing of status bodies (`toTxStatus`, a parameter), the rendering of the response body
  (`toStatusContent`, so the body is the status name) and the HTTP exchanges with the coordinator.
  They belong to a library that is not part of this model.
- `TxStatus` is abstract. Which statuses the library's `isPrepare`, `isCommit`, `isCommitOnePhase`
  and `isAbort` accept is library behaviour, so they are four free flags.
- `SayHelloChaining`: exceptions thrown by the coordinator or the peer are not modelled. Failures
  to start, to enlist or to reach the peer would end the request before commit. The model assumes
  every call returns.
- `Collaborators.TxSupport.CommitTx` requires a started transaction. What the library does on
  commit without one is library behaviour. After commit the object keeps its transaction URI.
- The participant URL that `enlistParticipant` returns is only logged, so the model returns it and
  nothing reads it.
- Random draws: only the range `nextInt` promises is modelled. The model says nothing about the
  distribution or about collisions between ids.
- Java strings are UTF-16. The model works on Unicode scalar values, so its indices differ from
  Java's when a supplementary character is present. The pattern's literals and line terminators
  are all in the Basic Multilingual Plane, so the group strings are the same.
- `olaSecured` and `logout` (Keycloak and servlet sessions) and `health` (a constant string) are
  not modelled.
- Logging (`System.out.println`), Spring routing, CORS and Swagger annotations are not modelled.
- Concurrency is not modelled: the handlers keep no state across calls.

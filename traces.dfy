/**
 * Sequences of registrations, handled one after another. Login and Validate
 * never change the registry, so the state a trace of requests reaches is
 * determined by its registrations alone. What the server promises over many
 * calls is stated here: the key sets stay aligned, stored entries never
 * change, a username is registered at most once, and every registration
 * after the first successful one is handed the same placeholder id.
 */
module Traces {
  import opened Outcomes
  import opened Collaborators
  import opened Handlers

  /** One Register request, with the salt bcrypt draws for it. */
  datatype Request = Request(username: string, password: string, salt: Bytes)

  /** The state a trace ends in and the reply to each of its requests, in order. */
  datatype Outcome = Outcome(final: Registry, replies: seq<Result<string, RegisterError>>)

  /** Handle `requests` in order, starting from `s`. */
  function Run(s: Registry, requests: seq<Request>, bcrypt: Bcrypt): (r: Outcome)
    ensures |r.replies| == |requests|
    decreases |requests|
  {
    if requests == [] then
      Outcome(s, [])
    else
      var step := Register(s, requests[0].username, requests[0].password, requests[0].salt, bcrypt);
      var rest := Run(step.next, requests[1..], bcrypt);
      Outcome(rest.final, [step.reply] + rest.replies)
  }

  /** Every user of `s` is still in `t`, with the same hash and, if one is stored, the same id. */
  ghost predicate Extends(s: Registry, t: Registry) {
    forall u :: u in s.users ==>
      && u in t.users && t.users[u] == s.users[u]
      && (u in s.userIds ==> u in t.userIds && t.userIds[u] == s.userIds[u])
  }

  /** The two maps keep one key set over any trace. */
  lemma {:induction false} RunKeepsAligned(s: Registry, requests: seq<Request>, bcrypt: Bcrypt)
    requires s.Aligned()
    ensures Run(s, requests, bcrypt).final.Aligned()
    decreases |requests|
  {
    if requests != [] {
      var step := Register(s, requests[0].username, requests[0].password, requests[0].salt, bcrypt);
      RunKeepsAligned(step.next, requests[1..], bcrypt);
    }
  }

  /** A stored hash or id is never overwritten or removed by later registrations. */
  lemma {:induction false} RunKeepsEntries(s: Registry, requests: seq<Request>, bcrypt: Bcrypt)
    ensures Extends(s, Run(s, requests, bcrypt).final)
    decreases |requests|
  {
    if requests != [] {
      var step := Register(s, requests[0].username, requests[0].password, requests[0].salt, bcrypt);
      RunKeepsEntries(step.next, requests[1..], bcrypt);
      assert Extends(s, step.next);
    }
  }

  /** Within a trace, a request for a username that is already registered is refused. */
  lemma {:induction false} RunRefusesKnown(s: Registry, requests: seq<Request>, bcrypt: Bcrypt, k: nat)
    requires k < |requests| && requests[k].username in s.users
    ensures Run(s, requests, bcrypt).replies[k] == Failure(UserExists)
    decreases |requests|
  {
    var step := Register(s, requests[0].username, requests[0].password, requests[0].salt, bcrypt);
    if k > 0 {
      assert Extends(s, step.next);
      RunRefusesKnown(step.next, requests[1..], bcrypt, k - 1);
    }
  }

  /**
   * A username is registered at most once: once a request for it has
   * succeeded, every later request for it fails with UserExists.
   */
  lemma {:induction false} RunRegistersOnce(s: Registry, requests: seq<Request>, bcrypt: Bcrypt, i: nat, j: nat)
    requires i < j < |requests| && requests[i].username == requests[j].username
    requires Run(s, requests, bcrypt).replies[i].Success?
    ensures Run(s, requests, bcrypt).replies[j] == Failure(UserExists)
    decreases |requests|
  {
    var step := Register(s, requests[0].username, requests[0].password, requests[0].salt, bcrypt);
    if i == 0 {
      RunRefusesKnown(step.next, requests[1..], bcrypt, j - 1);
    } else {
      RunRegistersOnce(step.next, requests[1..], bcrypt, i - 1, j - 1);
    }
  }

  /** Once `nextUserId` is the placeholder, every successful registration gets the placeholder and it stays. */
  lemma {:induction false} RunFromPlaceholder(s: Registry, requests: seq<Request>, bcrypt: Bcrypt, k: nat)
    requires s.nextUserId == Placeholder
    requires k < |requests| && Run(s, requests, bcrypt).replies[k].Success?
    ensures Run(s, requests, bcrypt).replies[k].value == Placeholder
    decreases |requests|
  {
    var step := Register(s, requests[0].username, requests[0].password, requests[0].salt, bcrypt);
    if k > 0 {
      RunFromPlaceholder(step.next, requests[1..], bcrypt, k - 1);
    }
  }

  /**
   * Every successful registration that follows another successful one in the
   * same trace is handed the placeholder "new UUID" as its id.
   */
  lemma {:induction false} RunIdsAfterFirst(s: Registry, requests: seq<Request>, bcrypt: Bcrypt, i: nat, j: nat)
    requires i < j < |requests|
    requires Run(s, requests, bcrypt).replies[i].Success? && Run(s, requests, bcrypt).replies[j].Success?
    ensures Run(s, requests, bcrypt).replies[j].value == Placeholder
    decreases |requests|
  {
    var step := Register(s, requests[0].username, requests[0].password, requests[0].salt, bcrypt);
    if i == 0 {
      RunFromPlaceholder(step.next, requests[1..], bcrypt, j - 1);
    } else {
      RunIdsAfterFirst(step.next, requests[1..], bcrypt, i - 1, j - 1);
    }
  }

  /**
   * Ids are not unique: of any three successful registrations in a trace, the
   * second and the third are handed the same id.
   */
  lemma IdsCollide(s: Registry, requests: seq<Request>, bcrypt: Bcrypt, i: nat, j: nat, k: nat)
    requires i < j < k < |requests|
    requires var replies := Run(s, requests, bcrypt).replies;
      replies[i].Success? && replies[j].Success? && replies[k].Success?
    ensures Run(s, requests, bcrypt).replies[j].value == Run(s, requests, bcrypt).replies[k].value
  {
    RunIdsAfterFirst(s, requests, bcrypt, i, j);
    RunIdsAfterFirst(s, requests, bcrypt, i, k);
  }

  /**
   * A concrete collision on a fresh server: when hashing succeeds, three new
   * users register in turn and the second and third end up with the same
   * stored id, the placeholder.
   */
  lemma ThreeUsersTwoShareId(firstId: string, bcrypt: Bcrypt, salt: Bytes)
    requires forall password :: bcrypt.generate(password, salt).Some?
    ensures var o := Run(Init(firstId), [Request("alice", "pw1", salt), Request("bob", "pw2", salt), Request("carol", "pw3", salt)], bcrypt);
      && o.replies == [Success(firstId), Success(Placeholder), Success(Placeholder)]
      && o.final.userIds == map["alice" := firstId, "bob" := Placeholder, "carol" := Placeholder]
  {
    var s0 := Init(firstId);
    var a, b, c := Request("alice", "pw1", salt), Request("bob", "pw2", salt), Request("carol", "pw3", salt);
    assert "bob" != "alice" && "carol" != "alice" && "carol" != "bob";
    var s1 := Register(s0, "alice", "pw1", salt, bcrypt);
    var s2 := Register(s1.next, "bob", "pw2", salt, bcrypt);
    var s3 := Register(s2.next, "carol", "pw3", salt, bcrypt);
    assert [a, b, c][1..] == [b, c] && [b, c][1..] == [c];
    assert Run(s2.next, [c], bcrypt) == Outcome(s3.next, [s3.reply]);
    assert Run(s1.next, [b, c], bcrypt) == Outcome(s3.next, [s2.reply, s3.reply]);
  }

  /**
   * A user whose registration succeeded can log in with the same password at
   * any later point of any trace, and the token's subject names the id that
   * registration returned.
   */
  lemma LoginAfterTrace(s: Registry, request: Request, later: seq<Request>, key: Bytes, now: int,
                        bcrypt: Bcrypt, jwt: Jwt)
    requires AcceptsOwnHashes(bcrypt)
    requires Run(s, [request], bcrypt).replies[0].Success?
    ensures var o := Run(s, [request] + later, bcrypt);
      && Login(o.final, key, request.username, request.password, now, bcrypt, jwt) !in {Failure(UserNotFound), Failure(InvalidPassword)}
      && LoginClaims(o.final, request.username, now).subject == SprintfD(o.replies[0].value)
  {
    var step := Register(s, request.username, request.password, request.salt, bcrypt);
    assert ([request] + later)[1..] == later;
    RunKeepsEntries(step.next, later, bcrypt);
    assert bcrypt.compare(bcrypt.generate(request.password, request.salt).value, request.password);
  }
}

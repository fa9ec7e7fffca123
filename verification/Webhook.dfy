/** The payment-intent half of the Stripe webhook: what each handler answers and does.
    Model of backend/internal/handler/webhook_handler.go, starting from a parsed event. */
module Webhook {
  import opened Donations

  datatype Kind = PaymentSucceeded | PaymentFailed

  /** `version`, `initiativeId` and `userId` are the event's metadata, "" when absent;
      `charge` is latest_charge's ID or "". Times are Unix seconds. */
  datatype Event = Event(kind: Kind, pi: string, charge: string, version: string,
                         initiativeId: string, userId: string, amount: int, created: int)

  /** ack_unimplemented, and the v2 race window in seconds (0: always retry). */
  datatype Config = Config(ackUnimplemented: bool, raceWindow: nat)

  datatype LedgerPost = LedgerPost(pi: string, projectId: string, userId: string, sourceTxn: string,
                                   sfid: string, amount: int)

  /** The error a handler returns, as dispatch tells them apart with errors.Is. */
  datatype HandlerError = NoError | NotFoundError | TransientError

  function Target(k: Kind): Status {
    if k.PaymentSucceeded? then Succeeded else Failed
  }

  /** The charge ID the handler hands to the update: none on a failure event. */
  function ChargeOf(e: Event): string {
    if e.kind.PaymentSucceeded? then e.charge else ""
  }

  predicate RaceExpired(cfg: Config, now: int, e: Event) {
    cfg.raceWindow > 0 && now - e.created > cfg.raceWindow
  }

  /** A success event whose missing row Stripe is asked to retry. */
  predicate AwaitsRow(cfg: Config, now: int, e: Event) {
    e.kind.PaymentSucceeded? && e.version == "v2" && !RaceExpired(cfg, now, e)
  }

  /** A success event that is posted to the Ledger once it has moved its row. */
  predicate PostsToLedger(e: Event) {
    e.kind.PaymentSucceeded? && e.version == "v2" && e.initiativeId != "" && e.userId != ""
  }

  function PostFor(e: Event, sfid: string): LedgerPost {
    LedgerPost(e.pi, e.initiativeId, e.userId, if e.charge == "" then e.pi else e.charge, sfid, e.amount)
  }

  /** The HTTP status owed for an update outcome, said from Stripe's side: 200 exactly when
      nothing more is expected of this delivery. */
  function Owed(cfg: Config, now: int, e: Event, o: UpdateOutcome): (code: nat)
    ensures code == 200 || code == 500
  {
    if cfg.ackUnimplemented || o.Updated? || o.AlreadyProcessed? || (o.NotFound? && !AwaitsRow(cfg, now, e))
    then 200 else 500
  }

  /** Dispatch over one repository, with nothing else running. */
  class WebhookHandler {
    const repo: DonationRepository
    const cfg: Config
    var posts: seq<LedgerPost>

    constructor (repo: DonationRepository, cfg: Config)
      ensures this.repo == repo && this.cfg == cfg && posts == []
    {
      this.repo, this.cfg, posts := repo, cfg, [];
    }

    method HandlePaymentIntentSucceeded(e: Event, now: int, updateOk: bool, probeOk: bool)
        returns (err: HandlerError, ghost o: UpdateOutcome)
      requires e.kind.PaymentSucceeded? && repo.Valid()
      modifies this, repo
      ensures repo.Valid()
      ensures repo.rows == if updateOk then Moved(old(repo.rows), e.pi, Succeeded, e.charge) else old(repo.rows)
      ensures o.Updated? <==> repo.rows != old(repo.rows)
      ensures o.Updated? ==> Exists(repo.rows, e.pi) && o.sfid == repo.rows[RowOf(repo.rows, e.pi)].sfid
      ensures o.AlreadyProcessed? <==> updateOk && probeOk && HasStatus(old(repo.rows), e.pi, Succeeded)
      ensures o.NotFound? <==> updateOk && probeOk && !Exists(old(repo.rows), e.pi)
      ensures err == NoError <==> o.Updated? || o.AlreadyProcessed?
      ensures err == NotFoundError <==> o.NotFound? && !AwaitsRow(cfg, now, e)
      ensures posts == old(posts) + (if o.Updated? && PostsToLedger(e) then [PostFor(e, o.sfid)] else [])
      // One post, and only for a complete v2 success that moved its row: the event's project,
      // donor and money, the charge as deduplication key, and the row's SFID.
      ensures o.Updated? && e.kind.PaymentSucceeded? && e.version == "v2" && e.initiativeId != "" && e.userId != "" ==>
        && |posts| == |old(posts)| + 1 && posts[..|old(posts)|] == old(posts)
        && var p := posts[|old(posts)|];
           && p.projectId == e.initiativeId && p.userId == e.userId && p.amount == e.amount && p.pi == e.pi
           && (if e.charge == "" then p.sourceTxn == e.pi else p.sourceTxn == e.charge)
           && p.sfid == repo.rows[RowOf(repo.rows, e.pi)].sfid
      ensures !(o.Updated? && e.kind.PaymentSucceeded? && e.version == "v2" && e.initiativeId != "" && e.userId != "") ==>
        posts == old(posts)
    {
      var outcome := repo.UpdateByPaymentIntentID(e.pi, Succeeded, e.charge, updateOk, probeOk);
      o := outcome;
      match outcome {
        case AlreadyProcessed => return NoError, o;
        case NotFound =>
          var raceExpired := cfg.raceWindow > 0 && now - e.created > cfg.raceWindow;
          if e.version == "v2" && !raceExpired { return TransientError, o; }
          return NotFoundError, o;
        case DbError => return TransientError, o;
        case Updated(sfid) =>
          if e.version != "v2" { return NoError, o; }
          if e.initiativeId == "" || e.userId == "" { return NoError, o; }
          var sourceTxn := if e.charge == "" then e.pi else e.charge;
          // The attempt is what is recorded: a failed post is only logged.
          posts := posts + [LedgerPost(e.pi, e.initiativeId, e.userId, sourceTxn, sfid, e.amount)];
          return NoError, o;
      }
    }

    method HandlePaymentIntentFailed(e: Event, updateOk: bool, probeOk: bool)
        returns (err: HandlerError, ghost o: UpdateOutcome)
      requires e.kind.PaymentFailed? && repo.Valid()
      modifies repo
      ensures repo.Valid()
      ensures repo.rows == if updateOk then Moved(old(repo.rows), e.pi, Failed, "") else old(repo.rows)
      ensures o.Updated? <==> repo.rows != old(repo.rows)
      ensures o.Updated? ==> Exists(repo.rows, e.pi) && o.sfid == repo.rows[RowOf(repo.rows, e.pi)].sfid
      ensures o.AlreadyProcessed? <==> updateOk && probeOk && HasStatus(old(repo.rows), e.pi, Failed)
      ensures o.NotFound? <==> updateOk && probeOk && !Exists(old(repo.rows), e.pi)
      ensures err == NoError <==> o.Updated? || o.AlreadyProcessed?
      ensures err == NotFoundError <==> o.NotFound?
    {
      var outcome := repo.UpdateByPaymentIntentID(e.pi, Failed, "", updateOk, probeOk);
      o := outcome;
      match outcome {
        case Updated(_) => err := NoError;
        case AlreadyProcessed => err := NoError;
        case NotFound => err := NotFoundError;
        case DbError => err := TransientError;
      }
    }

    /** One delivery from start to answer. The row moves, and the charge is posted, exactly
        as the atomic update says; the answer is the one Owed for it. */
    method Dispatch(e: Event, now: int, updateOk: bool, probeOk: bool) returns (code: nat, ghost o: UpdateOutcome)
      requires repo.Valid()
      modifies this, repo
      ensures repo.Valid()
      ensures repo.rows == if updateOk then Moved(old(repo.rows), e.pi, Target(e.kind), ChargeOf(e)) else old(repo.rows)
      ensures o.Updated? <==> repo.rows != old(repo.rows)
      ensures o.Updated? ==> Exists(repo.rows, e.pi) && o.sfid == repo.rows[RowOf(repo.rows, e.pi)].sfid
      ensures o.AlreadyProcessed? <==> updateOk && probeOk && HasStatus(old(repo.rows), e.pi, Target(e.kind))
      ensures o.NotFound? <==> updateOk && probeOk && !Exists(old(repo.rows), e.pi)
      ensures code == Owed(cfg, now, e, o)
      // Stripe is asked to retry after a database error, and for a v2 success whose row is
      // missing and whose window, if there is one, has not passed; never in pre-production.
      ensures cfg.ackUnimplemented || o.Updated? || o.AlreadyProcessed? ==> code == 200
      ensures !cfg.ackUnimplemented && o.DbError? ==> code == 500
      ensures !cfg.ackUnimplemented && o.NotFound? ==>
        (code == 500 <==> e.kind.PaymentSucceeded? && e.version == "v2" && (cfg.raceWindow == 0 || now - e.created <= cfg.raceWindow))
      ensures posts == old(posts) + (if o.Updated? && PostsToLedger(e) then [PostFor(e, o.sfid)] else [])
      // One post, and only for a complete v2 success that moved its row: the event's project,
      // donor and money, the charge as deduplication key, and the row's SFID.
      ensures o.Updated? && e.kind.PaymentSucceeded? && e.version == "v2" && e.initiativeId != "" && e.userId != "" ==>
        && |posts| == |old(posts)| + 1 && posts[..|old(posts)|] == old(posts)
        && var p := posts[|old(posts)|];
           && p.projectId == e.initiativeId && p.userId == e.userId && p.amount == e.amount && p.pi == e.pi
           && (if e.charge == "" then p.sourceTxn == e.pi else p.sourceTxn == e.charge)
           && p.sfid == repo.rows[RowOf(repo.rows, e.pi)].sfid
      ensures !(o.Updated? && e.kind.PaymentSucceeded? && e.version == "v2" && e.initiativeId != "" && e.userId != "") ==>
        posts == old(posts)
    {
      var err: HandlerError;
      if e.kind.PaymentSucceeded? {
        err, o := HandlePaymentIntentSucceeded(e, now, updateOk, probeOk);
      } else {
        err, o := HandlePaymentIntentFailed(e, updateOk, probeOk);
      }
      if err == NoError { return 200, o; }
      // A missing row never appears on retry: acknowledge to stop Stripe's retry loop.
      if err == NotFoundError { return 200, o; }
      code := if cfg.ackUnimplemented then 200 else 500;
    }
  }

  /** A delivery is acknowledged in production without its row then being in the event's status
      exactly when the row is not inserted yet and the event is not one that waits for it: a
      failure event always, a success event if it is not v2 or is past the window. The insert
      that follows then leaves the donation pending. */
  lemma LostFailureIff(cfg: Config, now: int, e: Event, t: Table, o: UpdateOutcome, d: Donation)
    requires OnePerIntent(t) && !cfg.ackUnimplemented
    requires o.Updated? <==> Exists(t, e.pi) && !HasStatus(t, e.pi, Target(e.kind))
    requires o.AlreadyProcessed? <==> HasStatus(t, e.pi, Target(e.kind))
    requires o.NotFound? <==> !Exists(t, e.pi)
    requires d.pi == e.pi != "" && d.status == Pending
    ensures var t' := Moved(t, e.pi, Target(e.kind), ChargeOf(e));
      && (Owed(cfg, now, e, o) == 200 && !HasStatus(t', e.pi, Target(e.kind)) <==> !Exists(t, e.pi) && !AwaitsRow(cfg, now, e))
      && (e.kind.PaymentFailed? ==> !AwaitsRow(cfg, now, e))
      && (!Exists(t, e.pi) ==> HasStatus(Inserted(t', d), e.pi, Pending))
  {
    MoveIsExact(t, e.pi, Target(e.kind), ChargeOf(e));
    if !Exists(t, e.pi) { InsertReplays(t, d); }
  }
}

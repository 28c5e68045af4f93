// Permission to touch mail: settings that bind an instance to a mailbox, a folder layout
// and a host, and the dry run that has to succeed under exactly these identities.
module Authorization {
  import opened Wrappers

  // `legacy` marks the deterministic identity that may adopt state older than bindings.
  datatype Mailbox = Mailbox(id: string, email: string, legacy: bool)

  // Fingerprints are taken as injective: a layout's is the layout itself.
  datatype Layout = Layout(mailbox: Mailbox, folders: seq<string>)

  // The setting first_dry_run_completed_at: never written, emptied, or a time.
  datatype Proof = NeverWritten | Revoked | CompletedAt(time: int)

  datatype Bound = Bound(mailbox: Option<Mailbox>, layout: Option<Layout>, deployment: string)

  // What the other tables contribute: any rows at all, rows of another account, moves or
  // restores under way, and whether some run ever succeeded.
  datatype History = History(rows: nat, foreign: nat, pending: nat, everSucceeded: bool)

  class Settings {
    var mailbox: Option<Mailbox>
    var layout: Option<Layout>
    var deployment: string
    var required: bool
    var proof: Proof
    var activeSince: Option<int>
    var protectSince: Option<int>
    var history: History
    const calm: bool

    // The identities bound at each error-free dry run, in order, and how many of them
    // came before the last time the permission was taken away.
    ghost var completed: seq<Bound>
    ghost var stale: nat

    ghost function Now(): Bound
      reads this
    {
      Bound(mailbox, layout, deployment)
    }

    ghost predicate Valid()
      reads this
    {
      && (mailbox.Some? <==> layout.Some?) && (layout.Some? ==> layout.value.mailbox == mailbox.value)
      && stale <= |completed| && (forall i :: 0 <= i < |completed| ==> completed[i].mailbox.Some?)
      && (required ==> proof != NeverWritten)
      && (required && proof.CompletedAt? ==> exists i :: stale <= i < |completed| && completed[i] == Now())
    }

    // A database created before any of these settings existed, or a new one.
    constructor (history: History, proof: Proof, calm: bool)
      ensures Valid() && !required && Now() == Bound(None, None, "") && completed == [] && this.proof == proof && this.calm == calm
    {
      mailbox, layout, deployment, required := None, None, "", false;
      this.proof, activeSince, protectSince, this.history := proof, None, None, history;
      this.calm := calm;
      completed, stale := [], 0;
    }

    // Each update is one transaction; it may fail as a whole.
    method Begin() returns (ok: bool)
      ensures calm ==> ok
    {
      var fails: bool := *;
      ok := calm || !fails;
    }

    predicate Populated()
      reads this
    {
      history.rows > 0 || mailbox.Some? || deployment != "" || required || proof != NeverWritten || activeSince.Some? || protectSince.Some?
    }

    // What the bound identities and the history allow to be bound: the same mailbox or the
    // first one of an empty database (a legacy one may adopt older state), and a new folder
    // layout only when no move or restore is under way.
    ghost predicate Bindable(c: Layout)
      reads this
    {
      if mailbox.Some? then mailbox.value == c.mailbox && (layout == Some(c) || history.pending == 0)
      else
        history.foreign == 0
        && (c.mailbox.legacy
            || (history.rows == 0 && deployment == "" && !required && proof == NeverWritten && activeSince.None? && protectSince.None?))
    }

    // BindConfiguration: the mailbox never changes, a new folder layout revokes permission.
    method BindConfiguration(c: Layout, now: int) returns (ok: bool)
      requires Valid()
      modifies this
      ensures Valid() && completed == old(completed) && (old(required) ==> required)
      ensures !ok ==> Now() == old(Now()) && required == old(required) && proof == old(proof)
      ensures ok ==> Now() == Bound(Some(c.mailbox), Some(c), old(deployment))
      ensures ok && old(mailbox).Some? ==> old(mailbox) == Some(c.mailbox)
      ensures ok && old(layout).Some? && old(layout) != Some(c) ==> required && proof == Revoked && old(history).pending == 0
      ensures ok && old(mailbox).None? && !c.mailbox.legacy ==> required && proof == Revoked
      ensures ok && (old(layout) == Some(c) || (old(mailbox).None? && c.mailbox.legacy)) ==> required == old(required) && proof == old(proof)
      ensures ok && old(layout).Some? && old(layout) != Some(c) ==> activeSince.None? && protectSince == Some(now)
      ensures !ok || old(layout).None? || old(layout) == Some(c) ==> activeSince == old(activeSince) && protectSince == old(protectSince)
      ensures if calm then ok <==> old(Bindable(c)) else ok ==> old(Bindable(c))
    {
      ok := Begin();
      if !ok { return; }
      if mailbox.Some? && mailbox.value != c.mailbox { return false; }
      if mailbox.None? && (history.foreign > 0 || (Populated() && !c.mailbox.legacy)) { return false; }
      if mailbox.None? != layout.None? { return false; }
      var changed := layout.Some? && layout.value != c;
      if changed && history.pending > 0 { return false; }
      if (mailbox.None? && !c.mailbox.legacy) || changed {
        required, proof := true, Revoked;
        stale := |completed|;
      }
      if changed { activeSince, protectSince := None, Some(now); }
      mailbox, layout := Some(c.mailbox), Some(c);
    }

    // BindDeployment: the first host and every other host start without permission.
    method BindDeployment(identity: string, now: int) returns (ok: bool)
      requires Valid()
      modifies this
      ensures Valid() && completed == old(completed) && (old(required) ==> required)
      ensures mailbox == old(mailbox) && layout == old(layout)
      ensures deployment == if ok then identity else old(deployment)
      ensures ok && old(deployment) != identity ==> required && proof == Revoked
      ensures !ok || old(deployment) == identity ==> required == old(required) && proof == old(proof)
      ensures ok && old(deployment) != identity ==> activeSince.None? && protectSince == Some(now)
      ensures !ok || old(deployment) == identity ==> activeSince == old(activeSince) && protectSince == old(protectSince)
      ensures if calm then ok <==> identity != "" else ok ==> identity != ""
    {
      if identity == "" { return false; }
      ok := Begin();
      if !ok || deployment == identity { return; }
      deployment, required, proof := identity, true, Revoked;
      activeSince, protectSince := None, Some(now);
      stale := |completed|;
    }

    // ReauthorizeDeployment: a handover keeps the policy history and still revokes the proof.
    method ReauthorizeDeployment(c: Layout, identity: string, purgeEnabled: bool, reconciled: bool, lastRunClean: bool) returns (ok: bool)
      requires Valid()
      modifies this
      ensures Valid() && completed == old(completed) && (old(required) ==> required)
      ensures activeSince == old(activeSince) && protectSince == old(protectSince)
      ensures ok ==> required && proof == Revoked && old(Now()) == Bound(Some(c.mailbox), Some(c), "") && Now() == old(Now()).(deployment := identity)
      ensures ok ==> !purgeEnabled && reconciled && lastRunClean && identity != ""
      ensures !ok ==> Now() == old(Now()) && required == old(required) && proof == old(proof)
      ensures calm ==> (ok <==>
        identity != "" && !purgeEnabled && old(Now()) == Bound(Some(c.mailbox), Some(c), "") && reconciled && lastRunClean)
    {
      if identity == "" || purgeEnabled { return false; }
      ok := Begin();
      if !ok || deployment != "" { return false; }
      if mailbox != Some(c.mailbox) || layout != Some(c) || !reconciled || !lastRunClean { return false; }
      deployment, required, proof := identity, true, Revoked;
      stale := |completed|;
    }

    // RequireFreshDryRun: onboarding starts over.
    method RequireFreshDryRun(now: int) returns (ok: bool)
      requires Valid()
      modifies this
      ensures Valid() && completed == old(completed) && required == old(required) && Now() == old(Now())
      ensures proof == (if ok then Revoked else old(proof)) && (calm ==> ok)
      ensures ok ==> activeSince.None? && protectSince == Some(now)
      ensures !ok ==> activeSince == old(activeSince) && protectSince == old(protectSince)
    {
      ok := Begin();
      if !ok { return; }
      proof, activeSince, protectSince := Revoked, None, Some(now);
      stale := |completed|;
    }

    // DryRunAuthorized: only a database that never had the setting may inherit permission
    // from an older successful run.
    method DryRunAuthorized(now: int) returns (authorized: bool)
      requires Valid()
      modifies this
      ensures Valid() && completed == old(completed) && required == old(required) && Now() == old(Now())
      ensures authorized ==> proof.CompletedAt?
      ensures old(proof) != NeverWritten ==> proof == old(proof) && (authorized <==> proof.CompletedAt?)
      ensures old(required) ==> proof == old(proof)
      ensures old(proof) == NeverWritten ==> proof == if authorized then CompletedAt(now) else NeverWritten
      ensures old(proof) == NeverWritten && authorized ==> history.everSucceeded
      ensures calm && old(proof) == NeverWritten && history.everSucceeded ==> authorized
      ensures history == old(history) && activeSince == old(activeSince) && protectSince == old(protectSince)
    {
      if proof != NeverWritten { return proof.CompletedAt?; }
      if !history.everSucceeded { return false; }
      authorized := Begin();
      if authorized { proof := CompletedAt(now); }
    }

    // A dry run binds its configuration first, and its success is recorded only when it
    // finished without a single error.
    method DryRun(c: Layout, errors: nat, aborted: bool, started: int, finished: int) returns (ok: bool)
      requires Valid()
      modifies this
      ensures Valid() && (old(required) ==> required)
      ensures ok ==> errors == 0 && !aborted && completed == old(completed) + [Now()] && proof == CompletedAt(finished)
      ensures ok ==> Now() == Bound(Some(c.mailbox), Some(c), old(deployment))
      ensures !ok ==> completed == old(completed)
      ensures calm ==> (ok <==> old(Bindable(c)) && errors == 0 && !aborted)
    {
      ok := BindConfiguration(c, started);
      if !ok || aborted || errors > 0 { return false; }
      ok := Begin();
      if !ok { return; }
      proof := CompletedAt(finished);
      completed := completed + [Now()];
      assert completed[|completed| - 1] == Now();
    }

    // RequireOperationalAuthorization: the gate in front of every run that changes mail.
    method Authorized() returns (ok: bool)
      requires Valid()
      ensures ok ==> (required ==> exists i :: stale <= i < |completed| && completed[i] == Now())
      ensures calm ==> (ok <==> !required || proof.CompletedAt?)
    {
      ok := Begin();
      if ok && required { ok := proof.CompletedAt?; }
    }

    // RevokeSnapshotAuthorization: a copy of the database for another host.
    method RevokedCopy(preserveHistory: bool, now: int) returns (copy: Settings)
      requires Valid()
      ensures fresh(copy) && copy.Valid()
      ensures copy.required && copy.proof == Revoked && copy.completed == completed && copy.stale == |completed|
      ensures copy.Now() == Now().(deployment := "")
      ensures preserveHistory ==> copy.activeSince == activeSince && copy.protectSince == protectSince
    {
      copy := new Settings(history, Revoked, calm);
      copy.mailbox, copy.layout, copy.required, copy.deployment := mailbox, layout, true, "";
      copy.activeSince, copy.protectSince := if preserveHistory then activeSince else None, if preserveHistory then protectSince else Some(now);
      copy.completed, copy.stale := completed, |completed|;
    }
  }

  // ----- Whole histories -----

  datatype Action =
    | Bind(layout: Layout)
    | Host(identity: string)
    | Handover(layout: Layout, identity: string, purgeEnabled: bool, reconciled: bool, lastRunClean: bool)
    | Fresh
    | Adopt
    | Try(layout: Layout, errors: nat, aborted: bool)
    | Migrate(preserveHistory: bool)

  // Any history of rebinding, hosting, handing over, resetting, adopting, trying and
  // migrating, and the gate at its end: once a fresh dry run was required, the requirement
  // stays, and only a dry run without errors under the identities bound now, and later than
  // the last revocation, opens the gate.
  method Live(start: Settings, actions: seq<Action>, times: seq<int>, histories: seq<History>)
    returns (s: Settings, everRequired: bool, allowed: bool)
    requires start.Valid() && |times| >= |actions| && |histories| >= |actions|
    modifies start
    ensures s.Valid() && (everRequired ==> s.required) && (old(start.required) ==> everRequired)
    ensures allowed && everRequired ==> exists i :: s.stale <= i < |s.completed| && s.completed[i] == s.Now()
  {
    s, everRequired := start, start.required;
    for i := 0 to |actions|
      invariant s.Valid() && (s == start || fresh(s)) && (everRequired ==> s.required) && (old(start.required) ==> everRequired)
    {
      s.history := histories[i];
      match actions[i] {
        case Bind(c) => var ok := s.BindConfiguration(c, times[i]);
        case Host(identity) => var ok := s.BindDeployment(identity, times[i]);
        case Handover(c, identity, p, r, l) => var ok := s.ReauthorizeDeployment(c, identity, p, r, l);
        case Fresh => var ok := s.RequireFreshDryRun(times[i]);
        case Adopt => var ok := s.DryRunAuthorized(times[i]);
        case Try(c, errors, aborted) => var ok := s.DryRun(c, errors, aborted, times[i], times[i]);
        case Migrate(preserve) => s := s.RevokedCopy(preserve, times[i]);
      }
      everRequired := everRequired || s.required;
    }
    allowed := s.Authorized();
  }
}

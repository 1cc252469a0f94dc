/** Second-factor logins: one user's row, and logins that read it, decide, and then write
    with a compare-and-swap, interleaved with each other and with a new setup. `lower` stands
    for lower-casing; `totp` for the time-based check of the code that was entered. */
module TwoFactor {
  import opened Wrappers
  import opened Text

  /** The backup-codes column: the encoding of a list, or text that does not decode. */
  datatype Stored = Codes(codes: seq<string>) | Malformed(text: string)

  datatype Row = Row(secret: string, enabled: bool, stored: Stored)

  datatype Verdict = Rejected | ByTotp | ByBackup(next: Stored)

  datatype Login =
    | Arrived(code: string)
    | Decided(code: string, seen: Row, verdict: Verdict)
    | Finished(ok: bool, backupUsed: bool)

  /** `issued` and `accepted` record, per secret, the codes handed out and the codes that
      logins were let in with, lower-cased. */
  datatype State = State(
    row: Option<Row>,
    logins: map<nat, Login>,
    issued: map<string, seq<string>>,
    accepted: map<string, seq<string>>)

  datatype Step =
    | Arrive(l: nat, code: string)
    | ReadRow(l: nat, totp: bool)
    | Commit(l: nat)
    | Setup(secret: string, codes: seq<string>)
    | SetEnabled(secret: string, enabled: bool)

  // ---------- the backup-code check ----------

  function Key(lower: string -> string, code: string): string {
    lower(TrimSpace(code))
  }

  function Without(codes: seq<string>, i: nat): seq<string>
    requires i < |codes|
  {
    codes[..i] + codes[i + 1..]
  }

  function FirstMatch(lower: string -> string, codes: seq<string>, key: string): (i: nat)
    ensures i <= |codes| && (i < |codes| ==> lower(codes[i]) == key)
    ensures forall j :: 0 <= j < i ==> lower(codes[j]) != key
  {
    if codes == [] then 0
    else if lower(codes[0]) == key then 0
    else
      assert forall j :: 1 <= j < |codes| ==> codes[j] == codes[1..][j - 1];
      1 + FirstMatch(lower, codes[1..], key)
  }

  /** The list without the first matching code, or nothing if no code matches. */
  function CheckBackup(lower: string -> string, stored: Stored, code: string): Option<Stored> {
    match stored
    case Malformed(_) => None
    case Codes(codes) =>
      var i := FirstMatch(lower, codes, Key(lower, code));
      if i < |codes| then Some(Codes(Without(codes, i))) else None
  }

  function Decide(lower: string -> string, row: Row, code: string, totp: bool): Verdict {
    if totp then ByTotp
    else match CheckBackup(lower, row.stored, code) case Some(next) => ByBackup(next) case None => Rejected
  }

  // ---------- steps ----------

  /** The conditional update of a decided login. */
  predicate Swaps(row: Option<Row>, seen: Row, verdict: Verdict) {
    && row.Some? && row.value.enabled && row.value.secret == seen.secret
    && (verdict.ByBackup? ==> row.value.stored == seen.stored)
  }

  function CommitStep(lower: string -> string, s: State, l: nat): State
    requires l in s.logins && s.logins[l].Decided?
  {
    var q := s.logins[l];
    if q.verdict == Rejected || !Swaps(s.row, q.seen, q.verdict) then
      s.(logins := s.logins[l := Finished(false, false)])
    else if q.verdict == ByTotp then
      s.(logins := s.logins[l := Finished(true, false)])
    else
      var secret := q.seen.secret;
      var before := if secret in s.accepted then s.accepted[secret] else [];
      State(Some(s.row.value.(stored := q.verdict.next)),
            s.logins[l := Finished(true, true)],
            s.issued,
            s.accepted[secret := before + [Key(lower, q.code)]])
  }

  /** A setup writes a secret never used before together with its codes. It does not touch
      the enabled flag of an existing row, and the check that the flag was off is an
      earlier read, so a setup may commit at any time. */
  function SetupStep(s: State, secret: string, codes: seq<string>): State {
    if secret in s.issued then s
    else
      State(Some(Row(secret, s.row.Some? && s.row.value.enabled, Codes(codes))), s.logins,
            s.issued[secret := codes], s.accepted)
  }

  function Apply(lower: string -> string, s: State, step: Step): State {
    match step
    case Arrive(l, code) => if l in s.logins then s else s.(logins := s.logins[l := Arrived(code)])
    case ReadRow(l, totp) =>
      if l !in s.logins || !s.logins[l].Arrived? then s
      else if s.row == None || !s.row.value.enabled then s.(logins := s.logins[l := Finished(false, false)])
      else
        var code, row := s.logins[l].code, s.row.value;
        s.(logins := s.logins[l := Decided(code, row, Decide(lower, row, code, totp))])
    case Commit(l) => if l in s.logins && s.logins[l].Decided? then CommitStep(lower, s, l) else s
    case Setup(secret, codes) => SetupStep(s, secret, codes)
    case SetEnabled(secret, enabled) =>
      if s.row.Some? && s.row.value.secret == secret then s.(row := Some(s.row.value.(enabled := enabled))) else s
  }

  function Exec(lower: string -> string, s: State, steps: seq<Step>): State {
    if steps == [] then s else Apply(lower, Exec(lower, s, steps[..|steps| - 1]), steps[|steps| - 1])
  }

  /** Any row to begin with; the codes it holds are the ones issued with its secret. */
  predicate Initial(s: State) {
    && s.logins == map[] && s.accepted == map[]
    && (if s.row == None then s.issued == map[] else s.issued == map[s.row.value.secret := Listed(s.row.value.stored)])
  }

  function Listed(stored: Stored): seq<string> {
    if stored.Codes? then stored.codes else []
  }

  /** Switching is for the secret that the caller has seen, and touches the flag alone; a setup
      keeps the flag of the row that was there. */
  lemma SwitchAndSetup(lower: string -> string, s: State, secret: string, enabled: bool, codes: seq<string>)
    ensures var switched := Apply(lower, s, SetEnabled(secret, enabled));
            switched == if s.row.Some? && s.row.value.secret == secret
                        then s.(row := Some(Row(secret, enabled, s.row.value.stored))) else s
    ensures secret !in s.issued ==>
              var fresh' := Apply(lower, s, Setup(secret, codes));
              && fresh'.row == Some(Row(secret, s.row.Some? && s.row.value.enabled, Codes(codes)))
              && fresh'.logins == s.logins && fresh'.accepted == s.accepted && fresh'.issued == s.issued[secret := codes]
  {
  }

  // ---------- conservation ----------

  /** The codes as they are compared. */
  function Keys(lower: string -> string, codes: seq<string>): seq<string> {
    seq(|codes|, i requires 0 <= i < |codes| => lower(codes[i]))
  }

  function AcceptedFor(s: State, secret: string): seq<string> {
    if secret in s.accepted then s.accepted[secret] else []
  }

  /** The stored list, if `secret` is the one in force. */
  function InForce(s: State, secret: string): Option<seq<string>> {
    if s.row.Some? && s.row.value.secret == secret then Some(Listed(s.row.value.stored)) else None
  }

  ghost predicate Balanced(lower: string -> string, issued: seq<string>, used: seq<string>, live: Option<seq<string>>) {
    match live
    case Some(codes) => multiset(Keys(lower, codes)) + multiset(used) == multiset(Keys(lower, issued))
    case None => multiset(used) <= multiset(Keys(lower, issued))
  }

  ghost predicate Conserves(lower: string -> string, s: State, secret: string)
    requires secret in s.issued
  {
    Balanced(lower, s.issued[secret], AcceptedFor(s, secret), InForce(s, secret))
  }

  ghost predicate AllConserve(lower: string -> string, s: State) {
    forall secret :: secret in s.issued ==> Conserves(lower, s, secret)
  }

  ghost predicate LoginOk(lower: string -> string, issued: set<string>, q: Login) {
    q.Decided? ==> q.seen.secret in issued
                   && (q.verdict.ByBackup? ==> CheckBackup(lower, q.seen.stored, q.code) == Some(q.verdict.next))
  }

  ghost predicate LoginsOk(lower: string -> string, s: State) {
    forall l :: l in s.logins ==> LoginOk(lower, s.issued.Keys, s.logins[l])
  }

  ghost predicate Inv(lower: string -> string, s: State) {
    && (s.row.Some? ==> s.row.value.secret in s.issued)
    && s.accepted.Keys <= s.issued.Keys
    && AllConserve(lower, s)
    && LoginsOk(lower, s)
  }

  /** Removing a code from the list removes exactly its key. */
  lemma WithoutKey(lower: string -> string, codes: seq<string>, i: nat)
    requires i < |codes|
    ensures multiset(Keys(lower, Without(codes, i))) + multiset{lower(codes[i])} == multiset(Keys(lower, codes))
  {
    var k, w := Keys(lower, codes), Keys(lower, Without(codes, i));
    assert w == k[..i] + k[i + 1..];
    assert k == k[..i] + [k[i]] + k[i + 1..];
  }

  /** Accepting a code moves its key from the list to the accepted keys. */
  lemma UseKeepsBalance(lower: string -> string, issued: seq<string>, used: seq<string>, stored: Stored, code: string)
    requires Balanced(lower, issued, used, Some(Listed(stored))) && CheckBackup(lower, stored, code).Some?
    ensures Balanced(lower, issued, used + [Key(lower, code)], Some(Listed(CheckBackup(lower, stored, code).value)))
  {
    WithoutKey(lower, stored.codes, FirstMatch(lower, stored.codes, Key(lower, code)));
  }

  /** A secret that goes out of force keeps its balance. */
  lemma RetireKeepsBalance(lower: string -> string, issued: seq<string>, used: seq<string>, live: Option<seq<string>>)
    requires Balanced(lower, issued, used, live)
    ensures Balanced(lower, issued, used, None)
  {
  }

  lemma LoginsStayOk(lower: string -> string, s: State, s': State, l: nat)
    requires LoginsOk(lower, s) && s.issued.Keys <= s'.issued.Keys
    requires s'.logins.Keys <= s.logins.Keys + {l}
    requires forall t :: t in s'.logins && t in s.logins && t != l ==> s'.logins[t] == s.logins[t]
    requires l in s'.logins ==> LoginOk(lower, s'.issued.Keys, s'.logins[l])
    ensures LoginsOk(lower, s')
  {
    forall t | t in s'.logins ensures LoginOk(lower, s'.issued.Keys, s'.logins[t]) {
      if t != l { assert LoginOk(lower, s.issued.Keys, s.logins[t]); }
    }
  }

  lemma SameBalance(lower: string -> string, s: State, s': State, secret: string)
    requires secret in s.issued && secret in s'.issued && s.issued[secret] == s'.issued[secret]
    requires InForce(s', secret) == InForce(s, secret) && AcceptedFor(s', secret) == AcceptedFor(s, secret)
    requires Conserves(lower, s, secret)
    ensures Conserves(lower, s', secret)
  {
  }

  /** The commits that take a code from the list in force. */
  predicate Uses(s: State, step: Step) {
    && step.Commit? && step.l in s.logins && s.logins[step.l].Decided? && s.logins[step.l].verdict.ByBackup?
    && Swaps(s.row, s.logins[step.l].seen, s.logins[step.l].verdict)
  }

  lemma UseBalances(lower: string -> string, s: State, step: Step)
    requires Uses(s, step) && s.logins[step.l].seen.secret in s.issued
    requires LoginOk(lower, s.issued.Keys, s.logins[step.l]) && Conserves(lower, s, s.logins[step.l].seen.secret)
    ensures Conserves(lower, Apply(lower, s, step), s.logins[step.l].seen.secret)
  {
    var q, s' := s.logins[step.l], Apply(lower, s, step);
    var secret := q.seen.secret;
    UseKeepsBalance(lower, s.issued[secret], AcceptedFor(s, secret), q.seen.stored, q.code);
    assert AcceptedFor(s', secret) == AcceptedFor(s, secret) + [Key(lower, q.code)];
    assert InForce(s', secret) == Some(Listed(q.verdict.next));
  }

  /** Only a setup, and a use of one of the secret's own codes, touch what is counted for it. */
  lemma CountsUntouched(lower: string -> string, s: State, step: Step, secret: string)
    requires !step.Setup? && !(Uses(s, step) && s.logins[step.l].seen.secret == secret)
    ensures var s' := Apply(lower, s, step);
            s'.issued == s.issued && InForce(s', secret) == InForce(s, secret)
            && AcceptedFor(s', secret) == AcceptedFor(s, secret)
  {
  }

  lemma SetupBalances(lower: string -> string, s: State, fresh': string, codes: seq<string>, secret: string)
    requires Inv(lower, s) && secret in SetupStep(s, fresh', codes).issued
    ensures Conserves(lower, SetupStep(s, fresh', codes), secret)
  {
    if secret in s.issued {
      assert Conserves(lower, s, secret);
      RetireKeepsBalance(lower, s.issued[secret], AcceptedFor(s, secret), InForce(s, secret));
    } else {
      assert AcceptedFor(s, secret) == [];
    }
  }

  lemma StepBalances(lower: string -> string, s: State, step: Step)
    requires Inv(lower, s)
    ensures AllConserve(lower, Apply(lower, s, step))
  {
    var s' := Apply(lower, s, step);
    forall secret | secret in s'.issued ensures Conserves(lower, s', secret) {
      if step.Setup? {
        SetupBalances(lower, s, step.secret, step.codes, secret);
      } else if Uses(s, step) && s.logins[step.l].seen.secret == secret {
        UseBalances(lower, s, step);
      } else {
        CountsUntouched(lower, s, step, secret);
        SameBalance(lower, s, s', secret);
      }
    }
  }

  /** A login's own step touches no other login, and leaves its own in order. */
  lemma LoginSteps(lower: string -> string, s: State, step: Step)
    requires step.Arrive? || step.ReadRow? || step.Commit?
    requires s.row.Some? ==> s.row.value.secret in s.issued
    requires step.l in s.logins ==> LoginOk(lower, s.issued.Keys, s.logins[step.l])
    ensures var s' := Apply(lower, s, step);
            && s'.issued == s.issued && s'.logins.Keys <= s.logins.Keys + {step.l}
            && (forall t :: t in s'.logins && t != step.l ==> t in s.logins && s'.logins[t] == s.logins[t])
            && (step.l in s'.logins ==> LoginOk(lower, s.issued.Keys, s'.logins[step.l]))
  {
  }

  lemma StepKeepsLogins(lower: string -> string, s: State, step: Step)
    requires Inv(lower, s)
    ensures LoginsOk(lower, Apply(lower, s, step))
  {
    if step.Arrive? || step.ReadRow? || step.Commit? {
      if step.l in s.logins { assert LoginOk(lower, s.issued.Keys, s.logins[step.l]); }
      LoginSteps(lower, s, step);
      LoginsStayOk(lower, s, Apply(lower, s, step), step.l);
    } else {
      LoginsStayOk(lower, s, Apply(lower, s, step), 0);
    }
  }

  lemma StepKeeps(lower: string -> string, s: State, step: Step)
    requires Inv(lower, s)
    ensures Inv(lower, Apply(lower, s, step))
  {
    StepBalances(lower, s, step);
    StepKeepsLogins(lower, s, step);
    if step.Commit? && step.l in s.logins { assert LoginOk(lower, s.issued.Keys, s.logins[step.l]); }
  }

  lemma {:induction false} InvAlways(lower: string -> string, s: State, steps: seq<Step>)
    requires Initial(s)
    ensures Inv(lower, Exec(lower, s, steps))
  {
    if steps == [] {
      forall t | t in s.issued ensures Conserves(lower, s, t) {
        assert multiset(AcceptedFor(s, t)) == multiset{};
      }
    } else {
      InvAlways(lower, s, steps[..|steps| - 1]);
      StepKeeps(lower, Exec(lower, s, steps[..|steps| - 1]), steps[|steps| - 1]);
    }
  }

  // ---------- the guarantees ----------

  /** Over every interleaving, logins let in with a code under one secret never exceed the
      number of times the code was issued. */
  lemma {:induction false} SingleUse(lower: string -> string, s: State, steps: seq<Step>, secret: string, key: string)
    requires Initial(s) && secret in Exec(lower, s, steps).issued
    ensures var now := Exec(lower, s, steps);
            multiset(AcceptedFor(now, secret))[key] <= multiset(Keys(lower, now.issued[secret]))[key]
  {
    InvAlways(lower, s, steps);
    assert Conserves(lower, Exec(lower, s, steps), secret);
  }

  /** While a secret is in force, what remains and what was accepted add up to what was
      issued, code by code and in number. */
  lemma {:induction false} RemainingPlusAccepted(lower: string -> string, s: State, steps: seq<Step>)
    requires Initial(s) && Exec(lower, s, steps).row.Some?
    ensures var now := Exec(lower, s, steps);
            var secret, remaining := now.row.value.secret, Listed(now.row.value.stored);
            && secret in now.issued
            && multiset(Keys(lower, remaining)) + multiset(AcceptedFor(now, secret))
               == multiset(Keys(lower, now.issued[secret]))
            && |remaining| + |AcceptedFor(now, secret)| == |now.issued[secret]|
  {
    InvAlways(lower, s, steps);
    var now := Exec(lower, s, steps);
    var secret, remaining := now.row.value.secret, Listed(now.row.value.stored);
    assert Conserves(lower, now, secret);
    assert |multiset(Keys(lower, remaining)) + multiset(AcceptedFor(now, secret))|
        == |multiset(Keys(lower, now.issued[secret]))|;
  }

  ghost predicate Shrinks(lower: string -> string, before: Option<seq<string>>, after: Option<seq<string>>) {
    before.Some? && after.Some?
    ==> multiset(Keys(lower, after.value)) <= multiset(Keys(lower, before.value))
  }

  lemma UseShrinks(lower: string -> string, s: State, step: Step)
    requires Uses(s, step) && LoginOk(lower, s.issued.Keys, s.logins[step.l])
    ensures var secret := s.logins[step.l].seen.secret;
            Shrinks(lower, InForce(s, secret), InForce(Apply(lower, s, step), secret))
  {
    var q := s.logins[step.l];
    WithoutKey(lower, q.seen.stored.codes, FirstMatch(lower, q.seen.stored.codes, Key(lower, q.code)));
    assert InForce(Apply(lower, s, step), q.seen.secret) == Some(Listed(q.verdict.next));
  }

  lemma SetupShrinks(lower: string -> string, s: State, fresh': string, codes: seq<string>, secret: string)
    requires s.row.Some? ==> s.row.value.secret in s.issued
    ensures Shrinks(lower, InForce(s, secret), InForce(SetupStep(s, fresh', codes), secret))
  {
  }

  /** No step brings a removed code back while its secret stays in force. */
  lemma {:induction false} NothingRestored(lower: string -> string, s: State, steps: seq<Step>, step: Step, secret: string)
    requires Initial(s)
    ensures var now := Exec(lower, s, steps);
            Shrinks(lower, InForce(now, secret), InForce(Apply(lower, now, step), secret))
  {
    InvAlways(lower, s, steps);
    var now := Exec(lower, s, steps);
    if step.Setup? {
      SetupShrinks(lower, now, step.secret, step.codes, secret);
    } else if Uses(now, step) && now.logins[step.l].seen.secret == secret {
      assert LoginOk(lower, now.issued.Keys, now.logins[step.l]);
      UseShrinks(lower, now, step);
    } else {
      CountsUntouched(lower, now, step, secret);
    }
  }

  // ---------- who is let in ----------

  /** `after` is the list without its first entry that is compared as `key`. */
  ghost predicate Removes(lower: string -> string, codes: seq<string>, key: string, after: Stored) {
    exists i :: 0 <= i < |codes| && lower(codes[i]) == key && (forall j :: 0 <= j < i ==> lower(codes[j]) != key)
                && after == Codes(codes[..i] + codes[i + 1..])
  }

  /** A code is accepted exactly if it is on the list, trimmed and in any case, and then the first
      such entry goes. */
  lemma CheckBackupIff(lower: string -> string, stored: Stored, code: string)
    ensures CheckBackup(lower, stored, code).Some?
            <==> exists c :: c in Listed(stored) && lower(c) == lower(TrimSpace(code))
    ensures CheckBackup(lower, stored, code).Some? ==>
              Removes(lower, Listed(stored), lower(TrimSpace(code)), CheckBackup(lower, stored, code).value)
  {
    if stored.Codes? {
      var i := FirstMatch(lower, stored.codes, lower(TrimSpace(code)));
      if i < |stored.codes| {
        assert stored.codes[i] in stored.codes;
      }
    }
  }

  /** Steps that are not the commit of login `l`. */
  predicate NotCommitting(steps: seq<Step>, l: nat) {
    forall i :: 0 <= i < |steps| ==> steps[i] != Commit(l)
  }

  lemma {:induction false} DecidedStays(lower: string -> string, s: State, steps: seq<Step>, l: nat)
    requires l in s.logins && (s.logins[l].Decided? || s.logins[l].Finished?) && NotCommitting(steps, l)
    ensures var now := Exec(lower, s, steps); l in now.logins && now.logins[l] == s.logins[l]
  {
    if steps != [] { DecidedStays(lower, s, steps[..|steps| - 1], l); }
  }

  /** What the login has seen when it has read the row. */
  lemma AfterRead(lower: string -> string, s: State, l: nat, totp: bool)
    requires l in s.logins && s.logins[l].Arrived?
    ensures var read := Apply(lower, s, ReadRow(l, totp));
            && l in read.logins
            && (if s.row.Some? && s.row.value.enabled
                then read.logins[l] == Decided(s.logins[l].code, s.row.value, Decide(lower, s.row.value, s.logins[l].code, totp))
                else read.logins[l] == Finished(false, false))
  {
  }

  lemma AfterCommit(lower: string -> string, at: State, l: nat)
    requires l in at.logins && at.logins[l].Decided?
    ensures var q, end := at.logins[l], Apply(lower, at, Commit(l));
            && l in end.logins
            && (if q.verdict == Rejected || !Swaps(at.row, q.seen, q.verdict)
                then end.logins[l] == Finished(false, false) && end.row == at.row
                else if q.verdict == ByTotp then end.logins[l] == Finished(true, false) && end.row == at.row
                else end.logins[l] == Finished(true, true) && end.row == Some(at.row.value.(stored := q.verdict.next)))
  {
  }

  /** A login reads the row, others do anything, and it commits: it is let in exactly if two-factor
      login was enabled and the time-based check passed or the code was on the list that was read,
      and by then the row is still enabled, with the same secret and, for a backup code, the same
      list. A backup login then takes the first matching entry from the list, and no other
      changes the row. */
  lemma {:induction false} LetInIff(lower: string -> string, s: State, l: nat, totp: bool, others: seq<Step>)
    requires l in s.logins && s.logins[l].Arrived? && NotCommitting(others, l)
    ensures var code, was := s.logins[l].code, s.row;
            var at := Exec(lower, Apply(lower, s, ReadRow(l, totp)), others);
            var end := Apply(lower, at, Commit(l));
            && l in end.logins && end.logins[l].Finished?
            && (end.logins[l].ok <==>
                && was.Some? && was.value.enabled
                && (totp || exists c :: c in Listed(was.value.stored) && lower(c) == lower(TrimSpace(code)))
                && at.row.Some? && at.row.value.enabled && at.row.value.secret == was.value.secret
                && (totp || at.row.value.stored == was.value.stored))
            && (end.logins[l].backupUsed <==> end.logins[l].ok && !totp)
            && (!end.logins[l].backupUsed ==> end.row == at.row)
            && (end.logins[l].backupUsed ==>
                && end.row.Some? && end.row == Some(at.row.value.(stored := end.row.value.stored))
                && Removes(lower, Listed(was.value.stored), lower(TrimSpace(code)), end.row.value.stored))
  {
    hide Exec, Apply, Removes, Listed, CheckBackup;
    var read := Apply(lower, s, ReadRow(l, totp));
    AfterRead(lower, s, l, totp);
    DecidedStays(lower, read, others, l);
    var at := Exec(lower, read, others);
    if s.row.Some? && s.row.value.enabled {
      CheckBackupIff(lower, s.row.value.stored, s.logins[l].code);
      AfterCommit(lower, at, l);
    } else {
      FinishedStays(lower, at, l);
    }
  }

  lemma FinishedStays(lower: string -> string, at: State, l: nat)
    requires l in at.logins && at.logins[l].Finished?
    ensures Apply(lower, at, Commit(l)) == at
  {
  }

  // ---------- the check in memory ----------

  /** The loop over the decoded codes. */
  method ValidateBackupCode(lower: string -> string, stored: Stored, code: string) returns (r: Option<Stored>)
    ensures r == CheckBackup(lower, stored, code)
    ensures r.Some? <==> exists c :: c in Listed(stored) && lower(c) == lower(TrimSpace(code))
    ensures r.Some? ==> Removes(lower, Listed(stored), lower(TrimSpace(code)), r.value)
  {
    CheckBackupIff(lower, stored, code);
    if stored.Malformed? { return None; }
    var codes, key := stored.codes, lower(TrimSpace(code));
    for i := 0 to |codes|
      invariant forall j :: 0 <= j < i ==> lower(codes[j]) != key
    {
      if lower(codes[i]) == key {
        assert codes[i] in codes;
        return Some(Codes(codes[..i] + codes[i + 1..]));
      }
    }
    return None;
  }

  class Account {
    var row: Option<Row>

    /** A whole login, undisturbed: let in if two-factor login is enabled and the time-based check
        passes or the code is on the list, of which it then takes the first such entry. */
    method ConsumeTwoFactorCode(lower: string -> string, code: string, totp: bool) returns (ok: bool, backupUsed: bool)
      modifies this
      ensures ok == (old(row).Some? && old(row).value.enabled && Decide(lower, old(row).value, code, totp) != Rejected)
      ensures ok <==> old(row).Some? && old(row).value.enabled
                      && (totp || exists c :: c in Listed(old(row).value.stored) && lower(c) == lower(TrimSpace(code)))
      ensures backupUsed <==> ok && !totp
      ensures !backupUsed ==> row == old(row)
      ensures backupUsed ==>
                row.Some? && row == Some(old(row).value.(stored := row.value.stored))
                && Removes(lower, Listed(old(row).value.stored), lower(TrimSpace(code)), row.value.stored)
    {
      if row == None || !row.value.enabled { return false, false; }
      var seen := row.value;
      if totp { return true, false; }
      var next := ValidateBackupCode(lower, seen.stored, code);
      if next == None { return false, false; }
      row := Some(row.value.(stored := next.value));
      return true, true;
    }
  }
}

/** The gate before every mutating command (src/cli-actor.ts): who acts, and does the company's
    policy list them? */
module ActorGate {
  import opened Lists
  import opened Options
  import opened PolicyReader
  import opened PolicyPrinter
  import opened Strings
  import opened Utf16

  // --- Actors ---

  /** At least two code units after the kind: the first is no space, the others are on its line. */
  predicate IsName(rest: string) {
    Length(rest) >= 2 && !IsSpace(rest[0]) && forall i :: 1 <= i < |rest| ==> !IsTerminator(rest[i])
  }

  predicate IsCanonicalActorId(value: string) {
    || (StartsWith(value, "user:") && IsName(value[5..]))
    || (StartsWith(value, "agent:") && IsName(value[6..]))
    || (StartsWith(value, "system:") && IsName(value[7..]))
  }

  /** The text before the first colon. */
  function Kind(actor: string): string {
    Before(actor, ':')
  }

  function TrimToNull(value: Option<string>): Option<string> {
    if value.None? || Trim(value.value) == "" then None else Some(Trim(value.value))
  }

  /** Letter by letter, as the platform's Unicode tables tell. */
  type Lowering = char -> string

  function Lower(lower: Lowering, s: string): string {
    if s == "" then "" else Lower(lower, s[..|s|-1]) + lower(s[|s|-1])
  }

  function Normal(lower: Lowering, actor: string): string {
    Lower(lower, Trim(actor))
  }

  // --- The allowlist ---

  /** What the policy file, if there is one, loads to. */
  function Allowlist(policy: Option<string>): set<string> {
    match policy
    case None => {}
    case Some(text) => Loaded(SplitLines(text))
  }

  ghost predicate HasForm(lower: Lowering, allowlist: set<string>, form: string) {
    exists entry :: entry in allowlist && Normal(lower, entry) == form
  }

  /** Some entry is written like the actor, up to case and the space around it. */
  ghost predicate Matches(lower: Lowering, actor: string, allowlist: set<string>) {
    HasForm(lower, allowlist, Normal(lower, actor))
  }

  method ActorMatchesAllowlist(lower: Lowering, actor: string, allowlist: set<string>) returns (found: bool)
    ensures found <==> Matches(lower, actor, allowlist)
  {
    if actor in allowlist {
      return true;
    }
    var normalised := Normal(lower, actor);
    var rest := allowlist;
    while rest != {}
      invariant rest <= allowlist
      invariant forall entry :: entry in allowlist - rest ==> Normal(lower, entry) != normalised
      decreases |rest|
    {
      var entry :| entry in rest;
      if Normal(lower, entry) == normalised {
        return true;
      }
      rest := rest - {entry};
    }
    return false;
  }

  datatype Decision = Allowed | NoPolicy(actor: string) | NotListed(actor: string)

  ghost predicate IsAllowed(lower: Lowering, allowlist: set<string>, kind: string, form: string) {
    if allowlist == {} then kind != "user" else HasForm(lower, allowlist, form)
  }

  /** Without a list only human actors are refused, with one whoever is not listed. */
  ghost function Decide(lower: Lowering, allowlist: set<string>, actor: string): Decision {
    if IsAllowed(lower, allowlist, Kind(actor), Normal(lower, actor)) then Allowed
    else if allowlist == {} then NoPolicy(actor)
    else NotListed(actor)
  }

  method DecideOn(lower: Lowering, allowlist: set<string>, actor: string) returns (decision: Decision)
    ensures decision == Decide(lower, allowlist, actor)
  {
    if allowlist == {} {
      return if Kind(actor) == "user" then NoPolicy(actor) else Allowed;
    }
    var found := ActorMatchesAllowlist(lower, actor, allowlist);
    return if found then Allowed else NotListed(actor);
  }

  /** What a decision on a list means. */
  ghost predicate IsDecision(lower: Lowering, allowlist: set<string>, actor: string, decision: Decision) {
    if allowlist == {} then decision == if Kind(actor) == "user" then NoPolicy(actor) else Allowed
    else
      && (decision == Allowed || decision == NotListed(actor))
      && (decision.Allowed? <==> exists entry :: entry in allowlist && Normal(lower, entry) == Normal(lower, actor))
  }

  lemma DecideMeans(lower: Lowering, allowlist: set<string>, actor: string)
    ensures IsDecision(lower, allowlist, actor, Decide(lower, allowlist, actor))
  {
  }

  method CheckActorAllowlist(lower: Lowering, policy: Option<string>, actor: string) returns (decision: Decision)
    ensures IsDecision(lower, Allowlist(policy), actor, decision)
    ensures decision == Decide(lower, Allowlist(policy), actor)
  {
    var allowlist: set<string> := {};
    if policy.Some? {
      allowlist := LoadActorAllowlist(SplitLines(policy.value));
    }
    decision := DecideOn(lower, allowlist, actor);
    DecideMeans(lower, allowlist, actor);
  }

  // --- The gate ---

  datatype Refusal = NotCanonical | NoActor | Refused(decision: Decision)
  datatype Outcome = NotGated | Accepted | Rejected(refusal: Refusal)

  /** The accounts that an actor can be derived from, in the order of preference. */
  datatype Accounts = Accounts(
    openclawAgent: Option<string>, rentemesterAgent: Option<string>, rentemesterUser: Option<string>,
    user: Option<string>, logname: Option<string>, username: Option<string>)

  function Derive(prefix: string, account: Option<string>): Option<string> {
    if account.None? || account.value == "" then None else TrimToNull(Some(prefix + account.value))
  }

  function OrElse(a: Option<string>, b: Option<string>): Option<string> {
    if a.Some? then a else b
  }

  function InferredActor(a: Accounts): Option<string> {
    OrElse(Derive("agent:", a.openclawAgent), OrElse(Derive("agent:", a.rentemesterAgent),
      OrElse(Derive("user:", a.rentemesterUser), OrElse(Derive("user:", a.user),
        OrElse(Derive("user:", a.logname), Derive("user:", a.username))))))
  }

  /** A mutating command, and the list of the policy that it runs under, if there is one. */
  datatype Request = Request(restoring: bool, hasPolicy: bool, allowlist: set<string>, lower: Lowering)

  function RequestUnder(restoring: bool, policy: Option<string>, lower: Lowering): Request {
    Request(restoring, policy.Some?, Allowlist(policy), lower)
  }

  /** A restore into a company that has no policy yet is not held against one. */
  predicate IsExempt(r: Request) {
    r.restoring && !r.hasPolicy
  }

  function OutcomeOf(decision: Decision): Outcome {
    if decision.Allowed? then Accepted else Rejected(Refused(decision))
  }

  ghost function DerivedOutcome(r: Request, actor: string): Outcome {
    if IsExempt(r) then Accepted else OutcomeOf(Decide(r.lower, r.allowlist, actor))
  }

  ghost function ExplicitOutcome(r: Request, actor: string): Outcome {
    if !IsCanonicalActorId(actor) then Rejected(NotCanonical) else DerivedOutcome(r, actor)
  }

  /** The actor named on the command line, or else the one in the environment. */
  function ExplicitActor(cliActor: Option<string>, environment: Option<string>): Option<string> {
    var actor := if cliActor.Some? then cliActor else TrimToNull(environment);
    if actor == Some("") then None else actor
  }

  ghost function GateOutcome(r: Request, explicit: Option<string>, derived: Option<string>): Outcome {
    if explicit.Some? then ExplicitOutcome(r, explicit.value)
    else if derived.Some? then DerivedOutcome(r, derived.value)
    else Rejected(NoActor)
  }

  /** The channel that is recorded with an explicit actor: the one that is named, else the one in
      the environment, else the command line itself. */
  function ViaAfter(cliActorVia: Option<string>, environment: Option<string>): Option<string> {
    if cliActorVia.Some? && cliActorVia.value != "" then cliActorVia
    else if TrimToNull(environment).None? then Some("rentemester-cli")
    else environment
  }

  /** The process: its environment, and the commands that need an actor. */
  class Process {
    const mutating: set<string>
    const lower: Lowering
    const accounts: Accounts
    var actor: Option<string>
    var actorVia: Option<string>

    constructor (mutating: set<string>, lower: Lowering, accounts: Accounts, actor: Option<string>, actorVia: Option<string>)
      ensures this.mutating == mutating && this.lower == lower && this.accounts == accounts
      ensures this.actor == actor && this.actorVia == actorVia
    {
      this.mutating, this.lower, this.accounts := mutating, lower, accounts;
      this.actor, this.actorVia := actor, actorVia;
    }

    method RecordActor(explicit: string, cliActorVia: Option<string>)
      modifies this
      ensures actor == Some(explicit) && actorVia == ViaAfter(cliActorVia, old(actorVia))
    {
      actor := Some(explicit);
      if cliActorVia.Some? && cliActorVia.value != "" {
        actorVia := cliActorVia;
      } else if TrimToNull(actorVia).None? {
        actorVia := Some("rentemester-cli");
      }
    }

    /** The outcome for an actor that the branch has settled on. */
    method CheckActor(ghost r: Request, policy: Option<string>, restoring: bool, who: string) returns (outcome: Outcome)
      requires r == RequestUnder(restoring, policy, lower)
      ensures outcome == DerivedOutcome(r, who)
    {
      if restoring && policy.None? {
        return Accepted;
      }
      var decision := CheckActorAllowlist(lower, policy, who);
      return if decision.Allowed? then Accepted else Rejected(Refused(decision));
    }

    method EnforceExplicit(ghost r: Request, policy: Option<string>, restoring: bool, who: string, cliActorVia: Option<string>)
      returns (outcome: Outcome)
      requires r == RequestUnder(restoring, policy, lower)
      modifies this
      ensures outcome == ExplicitOutcome(r, who)
      ensures outcome.Accepted? ==> actor == Some(who) && actorVia == ViaAfter(cliActorVia, old(actorVia))
      ensures !outcome.Accepted? ==> actor == old(actor) && actorVia == old(actorVia)
    {
      if !IsCanonicalActorId(who) {
        return Rejected(NotCanonical);
      }
      outcome := CheckActor(r, policy, restoring, who);
      if outcome.Accepted? {
        RecordActor(who, cliActorVia);
      }
    }

    method EnforceDerived(ghost r: Request, policy: Option<string>, restoring: bool) returns (outcome: Outcome)
      requires r == RequestUnder(restoring, policy, lower)
      ensures outcome == GateOutcome(r, None, InferredActor(accounts))
    {
      var derived := InferredActor(accounts);
      if derived.None? {
        return Rejected(NoActor);
      }
      outcome := CheckActor(r, policy, restoring, derived.value);
    }

    /** The environment changes only when an explicitly named actor is accepted. */
    method EnforceMutationActorPolicy(commandKey: string, policy: Option<string>, cliActor: Option<string>, cliActorVia: Option<string>)
      returns (outcome: Outcome)
      modifies this
      ensures var r := RequestUnder(commandKey == "system restore-backup", policy, lower);
        var explicit := ExplicitActor(cliActor, old(actor));
        && outcome == (if commandKey in mutating then GateOutcome(r, explicit, InferredActor(accounts)) else NotGated)
        && actor == (if outcome.Accepted? && explicit.Some? then explicit else old(actor))
      ensures actorVia ==
        if outcome.Accepted? && ExplicitActor(cliActor, old(actor)).Some? then ViaAfter(cliActorVia, old(actorVia)) else old(actorVia)
    {
      if commandKey !in mutating {
        return NotGated;
      }
      var restoring := commandKey == "system restore-backup";
      ghost var r := RequestUnder(restoring, policy, lower);
      var explicit := ExplicitActor(cliActor, actor);
      if explicit.Some? {
        outcome := EnforceExplicit(r, policy, restoring, explicit.value, cliActorVia);
      } else {
        outcome := EnforceDerived(r, policy, restoring);
      }
    }
  }

  // --- Both branches decide alike ---

  /** Naming the derived actor explicitly lets the same requests through, except for an actor that
      is not canonical: then the command must not be a restore without a policy, and the actor
      must be a human without a list or missing from the list that there is. */
  lemma BranchesAgreeExactlyWhen(r: Request, actor: string, derived: Option<string>)
    ensures (GateOutcome(r, Some(actor), derived).Accepted? <==> GateOutcome(r, None, Some(actor)).Accepted?)
      <==>
      || IsCanonicalActorId(actor)
      || (!(r.restoring && !r.hasPolicy) &&
          if r.allowlist == {} then Kind(actor) == "user"
          else forall entry :: entry in r.allowlist ==> Normal(r.lower, entry) != Normal(r.lower, actor))
  {
  }

  lemma UserActor(name: string)
    ensures IsCanonicalActorId("user:" + name) <==> IsName(name)
  {
    var actor := "user:" + name;
    assert actor[..5] == "user:" && actor[5..] == name;
    assert actor[0] == 'u' && "agent:"[0] == 'a' && "system:"[0] == 's';
  }

  /** An actor derived from a user account is canonical exactly when the account name, up to the
      space at its end, is a name: the derived branch does not check that. */
  lemma DerivedIsCanonicalExactlyWhen(account: string)
    requires account != ""
    ensures Derive("user:", Some(account)) == Some("user:" + TrimEnd(account))
    ensures IsCanonicalActorId("user:" + TrimEnd(account)) <==> IsName(TrimEnd(account))
  {
    TrimAfterPrefix("user:", account);
    UserActor(TrimEnd(account));
  }

  ghost predicate IsSet(account: Option<string>) {
    account.Some? && account.value != ""
  }

  ghost predicate IsOfKind(actor: Option<string>, kind: string) {
    actor.Some? ==> Kind(actor.value) == kind
  }

  lemma DerivedText(prefix: string, account: string)
    requires account != "" && prefix != "" && !IsSpace(prefix[0]) && !IsSpace(prefix[|prefix|-1])
    ensures Derive(prefix, Some(account)) == Some(prefix + TrimEnd(account))
  {
    TrimAfterPrefix(prefix, account);
  }

  lemma KindOfText(kind: string, prefix: string, rest: string)
    requires ':' !in kind && prefix == kind + ":"
    ensures Kind(prefix + rest) == kind
  {
    BeforeFirst(kind, ':', rest);
  }

  lemma DerivedKind(kind: string, prefix: string, account: Option<string>)
    requires kind != "" && !IsSpace(kind[0]) && ':' !in kind && prefix == kind + ":"
    ensures (Derive(prefix, account).Some? <==> IsSet(account)) && IsOfKind(Derive(prefix, account), kind)
  {
    if IsSet(account) {
      DerivedText(prefix, account.value);
      KindOfText(kind, prefix, TrimEnd(account.value));
    }
  }

  lemma FirstOfSix(a: Option<string>, b: Option<string>, c: Option<string>, d: Option<string>, e: Option<string>, f: Option<string>)
    requires IsOfKind(a, "agent") && IsOfKind(b, "agent")
    requires IsOfKind(c, "user") && IsOfKind(d, "user") && IsOfKind(e, "user") && IsOfKind(f, "user")
    ensures var r := OrElse(a, OrElse(b, OrElse(c, OrElse(d, OrElse(e, f)))));
      && (r.None? <==> a.None? && b.None? && c.None? && d.None? && e.None? && f.None?)
      && IsOfKind(r, if a.Some? || b.Some? then "agent" else "user")
  {
  }

  /** Some account has to be set; an agent's account always goes before a human's. */
  lemma AgentsComeFirst(a: Accounts)
    ensures InferredActor(a).None? <==>
      !IsSet(a.openclawAgent) && !IsSet(a.rentemesterAgent) && !IsSet(a.rentemesterUser) && !IsSet(a.user) && !IsSet(a.logname) && !IsSet(a.username)
    ensures IsOfKind(InferredActor(a), if IsSet(a.openclawAgent) || IsSet(a.rentemesterAgent) then "agent" else "user")
  {
    DerivedKind("agent", "agent:", a.openclawAgent);
    DerivedKind("agent", "agent:", a.rentemesterAgent);
    DerivedKind("user", "user:", a.rentemesterUser);
    DerivedKind("user", "user:", a.user);
    DerivedKind("user", "user:", a.logname);
    DerivedKind("user", "user:", a.username);
    FirstOfSix(Derive("agent:", a.openclawAgent), Derive("agent:", a.rentemesterAgent), Derive("user:", a.rentemesterUser),
      Derive("user:", a.user), Derive("user:", a.logname), Derive("user:", a.username));
  }

  /** The k-th of the six accounts, with the kind of actor that it makes. */
  ghost function Account(a: Accounts, k: int): (string, Option<string>)
    requires 0 <= k < 6
  {
    [("agent:", a.openclawAgent), ("agent:", a.rentemesterAgent), ("user:", a.rentemesterUser),
     ("user:", a.user), ("user:", a.logname), ("user:", a.username)][k]
  }

  ghost predicate IsFirstSet(a: Accounts, k: int) {
    0 <= k < 6 && IsSet(Account(a, k).1) && forall j :: 0 <= j < k ==> !IsSet(Account(a, j).1)
  }

  lemma AccountDerives(prefix: string, account: Option<string>)
    requires prefix == "agent:" || prefix == "user:"
    ensures Derive(prefix, account) == if IsSet(account) then Some(prefix + TrimEnd(account.value)) else None
  {
    if IsSet(account) {
      DerivedText(prefix, account.value);
    }
  }

  /** The actor is derived from the first account that is set, without the space at its end. */
  lemma FirstAccountWins(a: Accounts, k: int)
    requires IsFirstSet(a, k)
    ensures InferredActor(a) == Some(Account(a, k).0 + TrimEnd(Account(a, k).1.value))
  {
    AccountDerives("agent:", a.openclawAgent);
    AccountDerives("agent:", a.rentemesterAgent);
    AccountDerives("user:", a.rentemesterUser);
    AccountDerives("user:", a.user);
    AccountDerives("user:", a.logname);
    AccountDerives("user:", a.username);
    assert forall j :: 0 <= j < k ==> !IsSet(Account(a, j).1);
    assert k > 0 ==> !IsSet(Account(a, 0).1);
    assert k > 1 ==> !IsSet(Account(a, 1).1);
    assert k > 2 ==> !IsSet(Account(a, 2).1);
    assert k > 3 ==> !IsSet(Account(a, 3).1);
    assert k > 4 ==> !IsSet(Account(a, 4).1);
  }

  // --- Who passes ---

  /** A kind, a colon, and a name of at least two code units on one line, which begins with no space. */
  ghost predicate IsWritten(actor: string, kind: string, c: char, rest: string) {
    && actor == kind + ":" + ([c] + rest) && (kind == "user" || kind == "agent" || kind == "system")
    && !IsSpace(c) && IsSingleLine(rest) && (rest != "" || c as int >= 0x1_0000)
  }

  lemma NameExactlyWhen(name: string)
    ensures IsName(name) <==> name != "" && !IsSpace(name[0]) && IsSingleLine(name[1..]) && (name[1..] != "" || name[0] as int >= 0x1_0000)
  {
    if name != "" {
      assert name == [name[0]] + name[1..];
      if name[1..] == "" {
        UnitsOfOne(name[0]);
      } else {
        LengthGrows(name);
      }
      assert forall i :: 1 <= i < |name| ==> name[i] == name[1..][i - 1];
    }
  }

  /** A text has at least as many code units as characters. */
  lemma {:induction false} LengthGrows(s: string)
    ensures Length(s) >= |s|
  {
    if s != "" {
      LengthGrows(s[..|s|-1]);
    }
  }

  lemma CanonicalExactlyWhen(actor: string)
    ensures IsCanonicalActorId(actor) <==> exists kind, c, rest :: IsWritten(actor, kind, c, rest)
  {
    if IsCanonicalActorId(actor) {
      var kind, name := CanonicalSplits(actor);
      NameExactlyWhen(name);
      assert name == [name[0]] + name[1..];
      assert IsWritten(actor, kind, name[0], name[1..]);
    }
    if kind, c, rest :| IsWritten(actor, kind, c, rest) {
      WrittenIsCanonical(actor, kind, c, rest);
    }
  }

  lemma WrittenIsCanonical(actor: string, kind: string, c: char, rest: string)
    requires IsWritten(actor, kind, c, rest)
    ensures IsCanonicalActorId(actor)
  {
    var name, n := [c] + rest, |kind| + 1;
    NameExactlyWhen(name);
    assert name[1..] == rest;
    assert actor[..n] == kind + ":" && actor[n..] == name;
    assert "user" + ":" == "user:" && "agent" + ":" == "agent:" && "system" + ":" == "system:";
  }

  lemma UserKind(actor: string)
    ensures Kind(actor) == "user" <==> actor == "user" || StartsWith(actor, "user:")
  {
    if StartsWith(actor, "user:") {
      assert actor == "user" + [':'] + actor[5..];
      BeforeFirst("user", ':', actor[5..]);
    }
    if actor == "user" {
      BeforeNone(actor, ':');
    }
    if Kind(actor) == "user" && actor != "user" {
      assert actor[..4] == "user" && actor[4] == ':';
      assert actor[..5] == "user:";
    }
  }

  /** The policy lets the actor in: without a list whoever is no user, with one whoever it lists. */
  ghost predicate IsLetIn(r: Request, actor: string) {
    if r.allowlist == {} then actor != "user" && !StartsWith(actor, "user:")
    else exists entry :: entry in r.allowlist && Normal(r.lower, entry) == Normal(r.lower, actor)
  }

  lemma ListedExactlyWhen(r: Request, actor: string)
    requires r.allowlist != {}
    ensures IsAllowed(r.lower, r.allowlist, Kind(actor), Normal(r.lower, actor)) <==> IsLetIn(r, actor)
  {
  }

  lemma LetInExactlyWhen(r: Request, actor: string)
    ensures DerivedOutcome(r, actor).Accepted? <==> (r.restoring && !r.hasPolicy) || IsLetIn(r, actor)
  {
    if r.allowlist == {} {
      UserKind(actor);
    } else {
      ListedExactlyWhen(r, actor);
    }
  }

  /** A command passes the gate exactly when somebody acts, in canonical form if named, whom the
      policy lets in, or who restores a company that has none. */
  lemma PassesExactlyWhen(r: Request, explicit: Option<string>, derived: Option<string>)
    ensures GateOutcome(r, explicit, derived).Accepted? <==>
      match (explicit, derived)
      case (Some(actor), _) => IsCanonicalActorId(actor) && ((r.restoring && !r.hasPolicy) || IsLetIn(r, actor))
      case (None, Some(actor)) => (r.restoring && !r.hasPolicy) || IsLetIn(r, actor)
      case (None, None) => false
  {
    if explicit.Some? {
      LetInExactlyWhen(r, explicit.value);
    } else if derived.Some? {
      LetInExactlyWhen(r, derived.value);
    }
  }

  /** Why a command does not pass: nobody acts, the form is wrong, no policy, or not on its list. */
  lemma RefusalsTellWhy(r: Request, explicit: Option<string>, derived: Option<string>)
    ensures var o := GateOutcome(r, explicit, derived);
      && !o.NotGated?
      && (o == Rejected(NoActor) <==> explicit.None? && derived.None?)
      && (o == Rejected(NotCanonical) <==> explicit.Some? && !IsCanonicalActorId(explicit.value))
      && forall d :: o == Rejected(Refused(d)) ==> d == if r.allowlist == {} then NoPolicy(d.actor) else NotListed(d.actor)
  {
  }

  /** The actor on the command line comes first, if it is not empty; without one, the environment's,
      if it says something, without the space around it. */
  lemma NamedFirst(named: string, environment: Option<string>, said: string)
    requires named != ""
    ensures ExplicitActor(Some(named), environment) == Some(named) && ExplicitActor(Some(""), environment) == None
    ensures ExplicitActor(None, Some(said)) == (if Trim(said) == "" then None else Some(Trim(said))) && ExplicitActor(None, None) == None
    ensures ViaAfter(Some(named), environment) == Some(named)
    ensures ViaAfter(None, Some(said)) == (if IsBlank(said) then Some("rentemester-cli") else Some(said))
    ensures ViaAfter(None, None) == Some("rentemester-cli")
  {
    BlankExactlyWhen(said);
  }

  /** Lower case goes letter by letter. */
  lemma {:induction false} LowerOfTwo(lower: Lowering, a: string, b: string)
    ensures Lower(lower, a + b) == Lower(lower, a) + Lower(lower, b)
    ensures forall c :: Lower(lower, [c]) == lower(c)
  {
    forall c ensures Lower(lower, [c]) == lower(c) {
      assert [c][..0] == "";
    }
    if b == "" {
      assert a + b == a;
    } else {
      LowerOfTwo(lower, a, b[..|b|-1]);
      assert (a + b)[..|a + b|-1] == a + b[..|b|-1];
      Regroup(Lower(lower, a), Lower(lower, b[..|b|-1]), lower(b[|b|-1]));
    }
  }

  // --- Case and space do not matter ---

  /** A list never tells two spellings apart, on either branch. */
  lemma SpellingDoesNotMatter(r: Request, a: string, b: string)
    requires r.allowlist != {} && Normal(r.lower, a) == Normal(r.lower, b)
    ensures DerivedOutcome(r, a).Accepted? <==> DerivedOutcome(r, b).Accepted?
    ensures IsCanonicalActorId(a) && IsCanonicalActorId(b) ==> (ExplicitOutcome(r, a).Accepted? <==> ExplicitOutcome(r, b).Accepted?)
  {
    AcceptedByForm(r, a);
    AcceptedByForm(r, b);
  }

  lemma AcceptedByForm(r: Request, actor: string)
    requires r.allowlist != {}
    ensures DerivedOutcome(r, actor).Accepted? <==> IsExempt(r) || HasForm(r.lower, r.allowlist, Normal(r.lower, actor))
  {
  }

  // --- A command that runs another ---

  lemma CanonicalSplits(actor: string) returns (kind: string, name: string)
    requires IsCanonicalActorId(actor)
    ensures kind == "user" || kind == "agent" || kind == "system"
    ensures actor == kind + ":" + name && IsName(name) && Kind(actor) == kind
  {
    if StartsWith(actor, "user:") {
      kind, name := "user", actor[5..];
    } else if StartsWith(actor, "agent:") {
      kind, name := "agent", actor[6..];
    } else {
      kind, name := "system", actor[7..];
    }
    BeforeFirst(kind, ':', name);
  }

  /** The program trims the actor on its command line, and the one it finds in the environment. So
      whoever is accepted by name is accepted again, as the same actor, by a command that runs
      without naming one. */
  lemma AcceptedActorIsAcceptedAgain(r: Request, flag: Option<string>, environment: Option<string>, derived: Option<string>)
    requires ExplicitActor(TrimToNull(flag), environment).Some?
    requires GateOutcome(r, ExplicitActor(TrimToNull(flag), environment), derived).Accepted?
    ensures var explicit := ExplicitActor(TrimToNull(flag), environment);
      ExplicitActor(None, explicit) == explicit && GateOutcome(r, ExplicitActor(None, explicit), derived).Accepted?
  {
    TrimmedOnce(flag);
    TrimmedOnce(environment);
  }

  /** Trimming what has been trimmed changes nothing. */
  lemma TrimmedOnce(value: Option<string>)
    ensures TrimToNull(TrimToNull(value)) == TrimToNull(value) && TrimToNull(value) != Some("")
  {
    if value.Some? {
      TrimTwice(value.value);
    }
  }

  // --- Printed policies ---

  lemma NobodyNamed(p: Policy, crlf: seq<bool>)
    requires IsPrintablePolicy(p) && CanBeJoined(Render(p), crlf)
    ensures Allowlist(Some(JoinLines(Render(p), crlf))) == {} <==> !exists actor :: Names(p, actor)
  {
    forall actor ensures actor in Loaded(SplitLines(JoinLines(Render(p), crlf))) <==> Names(p, actor) {
      LoadUndoesPrint(p, crlf, actor);
    }
  }

  /** Under a printed policy the gate lets a canonical actor through exactly when the policy names
      a spelling of it; a policy that names nobody stops users only. */
  lemma PrintedPolicyDecides(p: Policy, crlf: seq<bool>, restoring: bool, lower: Lowering, actor: string, derived: Option<string>)
    requires IsPrintablePolicy(p) && CanBeJoined(Render(p), crlf) && IsCanonicalActorId(actor)
    ensures var r := RequestUnder(restoring, Some(JoinLines(Render(p), crlf)), lower);
      GateOutcome(r, Some(actor), derived).Accepted? <==>
        if exists named :: Names(p, named) then exists named :: Names(p, named) && Normal(lower, named) == Normal(lower, actor)
        else !StartsWith(actor, "user:")
  {
    var text := JoinLines(Render(p), crlf);
    NobodyNamed(p, crlf);
    forall named ensures named in Allowlist(Some(text)) <==> Names(p, named) {
      LoadUndoesPrint(p, crlf, named);
    }
    KindIsPrefix(actor);
    AcceptedUnder(RequestUnder(restoring, Some(text), lower), actor, derived);
  }

  lemma AcceptedUnder(r: Request, actor: string, derived: Option<string>)
    requires r.hasPolicy && IsCanonicalActorId(actor)
    ensures GateOutcome(r, Some(actor), derived).Accepted? <==> IsAllowed(r.lower, r.allowlist, Kind(actor), Normal(r.lower, actor))
  {
  }

  lemma KindIsPrefix(actor: string)
    requires IsCanonicalActorId(actor)
    ensures Kind(actor) == "user" <==> StartsWith(actor, "user:")
  {
    var kind, name := CanonicalSplits(actor);
    assert |"user"| == 4 && |"agent"| == 5 && |"system"| == 6;
    assert actor[0] == kind[0];
  }

  // --- The hint that comes with a refusal ---

  /** Where a refused actor is told to add a line, and the line. */
  function HintedSection(actor: string): string {
    if Kind(actor) == "agent" then "agents" else if Kind(actor) == "system" then "systems" else "users"
  }

  function HintedLine(actor: string): string {
    "    - " + actor
  }

  lemma {:induction false} LowerGrows(lower: Lowering, s: string, k: nat)
    requires k < |s| && forall c :: lower(c) != ""
    ensures |Lower(lower, s[..k])| < |Lower(lower, s)|
  {
    var front := s[..|s|-1];
    if k < |front| {
      LowerGrows(lower, front, k);
      assert front[..k] == s[..k];
    }
  }

  lemma NameSplits(name: string) returns (core: string, tail: string)
    requires IsName(name)
    ensures name == core + tail && core == TrimEnd(name) && IsBlank(tail) && IsSingleLine(tail)
  {
    core, tail := TrimEnd(name), name[|TrimEnd(name)|..];
    TrimmedIsBlank(name);
    TrimEndSurvives(name);
    assert forall i :: 0 <= i < |tail| ==> tail[i] == name[|core| + i];
  }

  /** A kind with a colon, and the section that its actors are listed in. */
  predicate IsSectionOf(prefix: string, section: string) {
    (prefix == "user:" && section == "users") || (prefix == "agent:" && section == "agents") || (prefix == "system:" && section == "systems")
  }

  /** An actor that the gate may refuse: one named explicitly has been found canonical, one that was
      derived need not be. */
  ghost predicate IsAsked(actor: string) {
    IsCanonicalActorId(actor) || exists a: Accounts :: InferredActor(a) == Some(actor)
  }

  lemma InferredIsDerived(a: Accounts, actor: string) returns (kind: string, account: string)
    requires InferredActor(a) == Some(actor)
    ensures (kind == "user" || kind == "agent") && account != "" && Derive(kind + ":", Some(account)) == Some(actor)
  {
    assert "agent" + ":" == "agent:" && "user" + ":" == "user:";
    if Derive("agent:", a.openclawAgent).Some? {
      return "agent", a.openclawAgent.value;
    } else if Derive("agent:", a.rentemesterAgent).Some? {
      return "agent", a.rentemesterAgent.value;
    }
    kind := "user";
    account := if Derive("user:", a.rentemesterUser).Some? then a.rentemesterUser.value
      else if Derive("user:", a.user).Some? then a.user.value
      else if Derive("user:", a.logname).Some? then a.logname.value
      else a.username.value;
  }

  /** An actor that the gate may refuse is a kind and a name, which may be empty; what is trimmed off
      its end has no line break. */
  lemma AskedSplits(actor: string) returns (kind: string, core: string, tail: string)
    requires IsAsked(actor)
    ensures kind == "user" || kind == "agent" || kind == "system"
    ensures actor == kind + ":" + core + tail && Kind(actor) == kind
    ensures (core != "" ==> !IsSpace(core[|core|-1])) && IsBlank(tail) && IsSingleLine(tail)
  {
    if IsCanonicalActorId(actor) {
      kind, core, tail := CanonicalParts(actor);
    } else {
      kind, core := InferredParts(actor);
      tail := "";
    }
  }

  lemma InferredParts(actor: string) returns (kind: string, core: string)
    requires exists a: Accounts :: InferredActor(a) == Some(actor)
    ensures kind == "user" || kind == "agent"
    ensures actor == kind + ":" + core + "" && Kind(actor) == kind && (core != "" ==> !IsSpace(core[|core|-1]))
  {
    var a: Accounts :| InferredActor(a) == Some(actor);
    kind, core := InferredSplits(a, actor);
    assert kind + ":" + core + "" == kind + ":" + core;
  }

  lemma CanonicalParts(actor: string) returns (kind: string, core: string, tail: string)
    requires IsCanonicalActorId(actor)
    ensures kind == "user" || kind == "agent" || kind == "system"
    ensures actor == kind + ":" + core + tail && Kind(actor) == kind
    ensures (core != "" ==> !IsSpace(core[|core|-1])) && IsBlank(tail) && IsSingleLine(tail)
  {
    var name;
    kind, name := CanonicalSplits(actor);
    core, tail := NameSplits(name);
    Regroup(kind + ":", core, tail);
  }

  lemma InferredSplits(a: Accounts, actor: string) returns (kind: string, core: string)
    requires InferredActor(a) == Some(actor)
    ensures kind == "user" || kind == "agent"
    ensures actor == kind + ":" + core && Kind(actor) == kind && (core != "" ==> !IsSpace(core[|core|-1]))
  {
    var account;
    kind, account := InferredIsDerived(a, actor);
    core := TrimEnd(account);
    DerivedParts(kind, account);
  }

  lemma DerivedParts(kind: string, account: string)
    requires (kind == "user" || kind == "agent") && account != ""
    ensures var actor := kind + ":" + TrimEnd(account); Derive(kind + ":", Some(account)) == Some(actor) && Kind(actor) == kind
  {
    KindsAreTight(kind);
    DerivedText(kind + ":", account);
    assert ':' !in kind;
    KindOfText(kind, kind + ":", TrimEnd(account));
  }

  lemma KindsAreTight(kind: string)
    requires kind == "user" || kind == "agent" || kind == "system"
    ensures !IsSpace((kind + ":")[0]) && !IsSpace((kind + ":")[|kind|])
  {
  }

  lemma KindHasSection(kind: string, actor: string)
    requires (kind == "user" || kind == "agent" || kind == "system") && Kind(actor) == kind
    ensures IsSectionOf(kind + ":", HintedSection(actor))
  {
  }

  lemma AskedCore(actor: string) returns (prefix: string, core: string, tail: string)
    requires IsAsked(actor)
    ensures IsSectionOf(prefix, HintedSection(actor))
    ensures IsTight(prefix + core) && IsBlank(tail) && IsSingleLine(tail)
    ensures actor == prefix + core + tail && Trim(actor) == prefix + core
  {
    var kind;
    kind, core, tail := AskedSplits(actor);
    prefix := kind + ":";
    KindHasSection(kind, actor);
    KindsAreTight(kind);
    TightAfterPrefix(prefix, core);
    TightIsTrimmed(prefix + core, tail);
  }

  lemma TightIsTrimmed(x: string, tail: string)
    requires IsTight(x) && IsBlank(tail)
    ensures Trim(x + tail) == x
  {
    assert (x + tail)[0] == x[0];
    TrimEndOf(x, tail);
  }

  lemma TightAfterPrefix(prefix: string, core: string)
    requires prefix != "" && !IsSpace(prefix[0]) && !IsSpace(prefix[|prefix|-1])
    requires core != "" ==> !IsSpace(core[|core|-1])
    ensures IsTight(prefix + core)
  {
    if core == "" {
      assert prefix + core == prefix;
    } else {
      assert (prefix + core)[|prefix + core|-1] == core[|core|-1];
    }
  }

  lemma HintedShape(x: string, tail: string)
    ensures "    - " + (x + tail) == "    " + ("-" + " " + x) + tail
    ensures IsBlank("    ") && IsBlank(" ") && IsBlank("")
  {
  }

  lemma PrefixedActor(prefix: string, section: string, value: string)
    requires IsSectionOf(prefix, section) && StartsWith(value, prefix)
    ensures Actor(Some(section), value) == value
  {
  }

  lemma UnquoteEnd(prefix: string, section: string, core: string)
    requires IsSectionOf(prefix, section)
    ensures var x := prefix + core;
      |x| > 1 && Unquote(x) == (if IsQuote(x[|x|-1]) then x[..|x|-1] else x) && StartsWith(Unquote(x), prefix)
  {
    var x := prefix + core;
    assert x[0] == prefix[0];
    assert x[..|prefix|] == prefix;
    if core == "" {
      assert x == prefix && x[|x|-1] == ':';
    } else {
      assert x[..|x|-1][..|prefix|] == prefix;
    }
  }

  lemma HintedSpelling(prefix: string, section: string, core: string)
    requires IsSectionOf(prefix, section)
    ensures var x := prefix + core;
      |x| > 1 && Actor(Some(section), Unquote(x)) == if IsQuote(x[|x|-1]) then x[..|x|-1] else x
  {
    UnquoteEnd(prefix, section, core);
    PrefixedActor(prefix, section, Unquote(prefix + core));
  }

  /** The hinted line is read as the actor's own spelling, without a quote at its end. */
  lemma HintedActor(actor: string)
    requires IsAsked(actor)
    ensures var x := Trim(actor);
      && IsTight(x) && |x| > 1
      && HintedEntry(actor) == if IsQuote(x[|x|-1]) then x[..|x|-1] else x
  {
    var prefix, core, tail := AskedCore(actor);
    HintedSpelling(prefix, HintedSection(actor), core);
  }

  lemma TrimmedFront(x: string) returns (n: nat)
    requires IsTight(x) && |x| > 1
    ensures n < |x| && Trim(x[..|x|-1]) == x[..n]
  {
    var front := x[..|x|-1];
    n := |Trim(front)|;
    TrimIsPrefix(front);
    SliceTwice(x, |x| - 1, n);
  }

  lemma ShorterIsNotAlike(lower: Lowering, x: string)
    requires IsTight(x) && |x| > 1 && forall c :: lower(c) != ""
    ensures Normal(lower, x[..|x|-1]) != Lower(lower, x)
  {
    var n := TrimmedFront(x);
    LowerGrows(lower, x, n);
  }

  /** The hinted line neither opens nor closes anything, and it is an entry if the actor is on one line. */
  lemma HintedLineScans(actor: string)
    requires IsAsked(actor)
    ensures var line := Scan(HintedLine(actor));
      IsQuiet(line) && Entry(line) == if IsSingleLine(Trim(actor)) then Some(Unquote(Trim(actor))) else None
  {
    var prefix, core, tail := AskedCore(actor);
    HintedShape(prefix + core, tail);
    DashScans("    ", " ", prefix + core, tail);
  }

  /** The entry that the hinted line adds to the list. */
  function HintedEntry(actor: string): string {
    Actor(Some(HintedSection(actor)), Unquote(Trim(actor)))
  }

  ghost function HintedEntries(actor: string): set<string> {
    if IsSingleLine(Trim(actor)) then {HintedEntry(actor)} else {}
  }

  lemma HintAddsEntry(before: seq<string>, after: seq<string>, actor: string)
    requires IsAsked(actor) && StateAfter(Map(Scan, before)) == Within(Some(HintedSection(actor)))
    ensures Loaded(before + [HintedLine(actor)] + after) == Loaded(before + after) + HintedEntries(actor)
  {
    var line := HintedLine(actor);
    MapTwo(Scan, before + [line], after);
    MapTwo(Scan, before, [line]);
    MapTwo(Scan, before, after);
    MapOne(Scan, line);
    HintedLineScans(actor);
    InsertedLine(Map(Scan, before), Scan(line), Map(Scan, after), Some(HintedSection(actor)));
    OneMoreActor(Mentions(Map(Scan, before) + Map(Scan, after)), Mention(Some(HintedSection(actor)), Unquote(Trim(actor))));
  }

  lemma OneMoreActor(mentions: set<Mention>, m: Mention)
    ensures Actors(mentions + {m}) == Actors(mentions) + {Actor(m.section, m.value)}
  {
  }

  /** Lower case letters stand for letters, and never for the end of a line. */
  ghost predicate KeepsLines(lower: Lowering) {
    forall c :: lower(c) != "" && (IsSingleLine(lower(c)) <==> !IsTerminator(c))
  }

  lemma {:induction false} LowerKeepsLines(lower: Lowering, s: string)
    requires KeepsLines(lower)
    ensures IsSingleLine(Lower(lower, s)) <==> IsSingleLine(s)
  {
    if s != "" {
      LowerKeepsLines(lower, s[..|s|-1]);
      JoinedLines(Lower(lower, s[..|s|-1]), lower(s[|s|-1]));
      JoinedLines(s[..|s|-1], [s[|s|-1]]);
      assert s == s[..|s|-1] + [s[|s|-1]];
      assert IsSingleLine([s[|s|-1]]) <==> !IsTerminator([s[|s|-1]][0]);
    }
  }

  lemma JoinedLines(a: string, b: string)
    ensures IsSingleLine(a + b) <==> IsSingleLine(a) && IsSingleLine(b)
  {
    assert forall i :: 0 <= i < |a| ==> (a + b)[i] == a[i];
    assert forall i :: 0 <= i < |b| ==> (a + b)[|a| + i] == b[i];
  }

  lemma PartIsSingleLine(s: string, i: nat, j: nat)
    requires IsSingleLine(s) && i <= j <= |s|
    ensures IsSingleLine(s[i..j])
  {
    assert forall k :: 0 <= k < j - i ==> s[i..j][k] == s[i + k];
  }

  lemma UnquotedIsSingleLine(s: string)
    requires IsSingleLine(s)
    ensures IsSingleLine(Unquote(s))
  {
    var t := if s != "" && IsQuote(s[0]) then s[1..] else s;
    if t != s {
      PartIsSingleLine(s, 1, |s|);
      assert s[1..|s|] == t;
    }
    if Unquote(s) != t {
      PartIsSingleLine(t, 0, |t| - 1);
      assert t[0..|t| - 1] == Unquote(s);
    }
  }

  lemma ValueIsSingleLine(rest: string)
    ensures ValueIn(rest).Some? ==> IsSingleLine(ValueIn(rest).value)
  {
    if ValueIn(rest).Some? {
      UnquotedIsSingleLine(Trim(rest));
    }
  }

  lemma ItemIsSingleLine(raw: string)
    ensures Item(raw).Some? ==> IsSingleLine(Item(raw).value)
  {
    if TrimStart(raw) != "" {
      ValueIsSingleLine(TrimStart(raw)[1..]);
    }
  }

  lemma ListedIsItem(raw: seq<string>, m: Mention) returns (i: nat)
    requires IsListed(Map(Scan, raw), m)
    ensures i < |raw| && Item(raw[i]) == Some(m.value)
  {
    i :| IsListedOn(Map(Scan, raw), i, m);
    var h: nat :| IsListedAt(Map(Scan, raw), h, i, m);
    assert Map(Scan, raw)[i] == Scan(raw[i]);
  }

  lemma PrefixedIsSingleLine(section: Option<string>, value: string)
    requires IsSingleLine(value)
    ensures IsSingleLine(Actor(section, value))
  {
    JoinedLines("user:", value);
    JoinedLines("agent:", value);
    JoinedLines("system:", value);
  }

  /** Whatever the policy says, its entries are on one line. */
  lemma EntriesAreSingleLine(raw: seq<string>, entry: string)
    requires entry in Loaded(raw)
    ensures IsSingleLine(entry)
  {
    AllowlistIsWhatIsListed(raw, entry);
    var m :| IsListed(Map(Scan, raw), m) && entry == Actor(m.section, m.value);
    var i := ListedIsItem(raw, m);
    ItemIsSingleLine(raw[i]);
    PrefixedIsSingleLine(m.section, m.value);
  }

  lemma TrimmedIsSingleLine(s: string)
    requires IsSingleLine(s)
    ensures IsSingleLine(Trim(s))
  {
    var t := TrimStart(s);
    PartIsSingleLine(s, |s| - |t|, |s|);
    assert s[|s| - |t|..|s|] == t;
    PartIsSingleLine(t, 0, |TrimEnd(t)|);
  }

  /** So no policy at all lets in an actor that is not on one line, up to the space around it. */
  lemma ListedIsSingleLine(lower: Lowering, raw: seq<string>, actor: string)
    requires KeepsLines(lower) && Matches(lower, actor, Loaded(raw))
    ensures IsSingleLine(Trim(actor))
  {
    var entry :| entry in Loaded(raw) && Normal(lower, entry) == Normal(lower, actor);
    EntriesAreSingleLine(raw, entry);
    TrimmedIsSingleLine(entry);
    LowerKeepsLines(lower, Trim(entry));
    LowerKeepsLines(lower, Trim(actor));
  }

  lemma HintedEntryMatches(lower: Lowering, actor: string)
    requires IsAsked(actor) && KeepsLines(lower)
    ensures Trim(actor) != ""
    ensures Normal(lower, HintedEntry(actor)) == Normal(lower, actor) <==> !IsQuote(Trim(actor)[|Trim(actor)|-1])
  {
    var x := Trim(actor);
    HintedActor(actor);
    TrimTwice(actor);
    if IsQuote(x[|x|-1]) {
      ShorterIsNotAlike(lower, x);
    }
  }

  lemma HintedLineEnds(actor: string)
    requires IsAsked(actor) && '\n' !in actor
    ensures '\n' !in HintedLine(actor) && WithoutReturn(HintedLine(actor)) == HintedLine(actor)
  {
    AskedEnd(actor);
    LastOf("    - ", actor);
    assert '\n' !in "    - ";
  }

  lemma AskedEnd(actor: string)
    requires IsAsked(actor)
    ensures actor != "" && actor[|actor|-1] != '\r'
  {
    var prefix, core, tail := AskedCore(actor);
    EndOfTight(prefix + core, tail);
  }

  lemma EndOfTight(x: string, tail: string)
    requires IsTight(x) && IsSingleLine(tail)
    ensures x + tail != "" && (x + tail)[|x + tail|-1] != '\r'
  {
    if tail != "" {
      LastOf(x, tail);
    }
  }

  /** The policy with the hinted line added, however many lines the actor makes of it. */
  function HintedPolicy(before: seq<string>, after: seq<string>, crlf: seq<bool>, actor: string): Option<string>
    requires |before| + |after| == |crlf|
  {
    Some(JoinLines(before + [HintedLine(actor)] + after, crlf))
  }

  /** Where the actor has no line feed, the hinted line adds its one entry, or none. */
  lemma HintIsLoaded(before: seq<string>, after: seq<string>, crlf: seq<bool>, actor: string)
    requires IsAsked(actor) && '\n' !in actor && CanBeJoined(before + [""] + after, crlf)
    requires StateAfter(Map(Scan, before)) == Within(Some(HintedSection(actor)))
    ensures Allowlist(HintedPolicy(before, after, crlf, actor)) == Loaded(before + after) + HintedEntries(actor)
  {
    HintedLineEnds(actor);
    LineCanBeJoined(before, HintedLine(actor), after, crlf);
    LoadedText(before + [HintedLine(actor)] + after, crlf);
    HintAddsEntry(before, after, actor);
  }

  lemma LineFeedIsKept(actor: string)
    requires IsAsked(actor) && '\n' in actor
    ensures !IsSingleLine(Trim(actor))
  {
    var prefix, core, tail := AskedCore(actor);
    JoinedLines(prefix + core, tail);
    assert !IsSingleLine(actor) by {
      var i :| 0 <= i < |actor| && actor[i] == '\n';
    }
  }

  /** Adding the hinted line anywhere in the hinted section of a policy lists whoever it listed, and
      the refused actor exactly when the actor is on one line and does not end in a quote, which the
      reader takes for the end of a quoted value. A list that is not empty stays so, except that an
      actor with a line feed may end it early. */
  lemma HintWorksExactlyWhen(lower: Lowering, before: seq<string>, after: seq<string>, crlf: seq<bool>, actor: string)
    requires IsAsked(actor) && KeepsLines(lower) && CanBeJoined(before + [""] + after, crlf)
    requires StateAfter(Map(Scan, before)) == Within(Some(HintedSection(actor)))
    ensures Trim(actor) != ""
    ensures var list := Allowlist(HintedPolicy(before, after, crlf, actor));
      && (Decide(lower, list, actor).Allowed? <==>
        if list == {} then Kind(actor) != "user"
        else
          || Matches(lower, actor, Loaded(before + after))
          || (IsSingleLine(Trim(actor)) && !IsQuote(Trim(actor)[|Trim(actor)|-1])))
      && ('\n' !in actor ==> Loaded(before + after) <= list)
  {
    var list := Allowlist(HintedPolicy(before, after, crlf, actor));
    HintedEntryMatches(lower, actor);
    if '\n' in actor {
      LineFeedIsKept(actor);
    } else {
      HintIsLoaded(before, after, crlf, actor);
    }
    if !IsSingleLine(Trim(actor)) {
      NoPolicyLists(lower, before + after, JoinLines(before + [HintedLine(actor)] + after, crlf), actor);
    } else {
      OneMoreEntry(lower, Loaded(before + after), HintedEntry(actor), actor);
    }
  }

  lemma NoPolicyLists(lower: Lowering, raw: seq<string>, text: string, actor: string)
    requires KeepsLines(lower) && !IsSingleLine(Trim(actor))
    ensures !Matches(lower, actor, Loaded(raw)) && !Matches(lower, actor, Allowlist(Some(text)))
  {
    if Matches(lower, actor, Loaded(raw)) {
      ListedIsSingleLine(lower, raw, actor);
    }
    if Matches(lower, actor, Allowlist(Some(text))) {
      ListedIsSingleLine(lower, SplitLines(text), actor);
    }
  }

  lemma LoadedText(lines: seq<string>, crlf: seq<bool>)
    requires CanBeJoined(lines, crlf)
    ensures Allowlist(Some(JoinLines(lines, crlf))) == Loaded(lines)
  {
    SplitUndoesJoin(lines, crlf);
  }

  lemma OneMoreEntry(lower: Lowering, list: set<string>, entry: string, actor: string)
    ensures Matches(lower, actor, list + {entry}) <==>
      Matches(lower, actor, list) || Normal(lower, entry) == Normal(lower, actor)
  {
    var more := list + {entry};
    if Normal(lower, entry) == Normal(lower, actor) {
      assert entry in more;
    }
    if e :| e in list && Normal(lower, e) == Normal(lower, actor) {
      assert e in more;
    }
  }

  // --- A user that the branches treat differently ---

  function ShortUser(): Policy {
    Policy([], [], [Group("users", [Value("    ", " ", "", "x", "")])], [])
  }

  lemma ThreeLines(a: string, b: string, c: string)
    requires '\n' !in a && '\n' !in b && '\n' !in c && WithoutReturn(a) == a && WithoutReturn(b) == b
    ensures CanBeJoined([a, b, c], [false, false])
    ensures JoinLines([a, b, c], [false, false]) == a + "\n" + (b + "\n" + c)
  {
    assert [a, b, c][1..] == [b, c] && [b, c][1..] == [c];
    assert [false, false][1..] == [false] && [false][1..] == [];
    assert JoinLines([c], []) == c;
    assert JoinLines([b, c], [false]) == b + "\n" + c;
  }

  lemma ShortUserLines()
    ensures Render(ShortUser()) == ["actor_allowlist:", "  users:", "    - x"]
  {
    var group := ShortUser().groups[0];
    MapOne(Show, group.parts[0]);
    assert Show(group.parts[0]) == "    - x" && ShowKey("users") == "  users:";
    assert ShowGroup(group) == ["  users:", "    - x"];
    OneFlatMapped(ShowGroup, group);
    assert Map(Show, ShortUser().lead) == [];
  }

  lemma OneFlatMapped<T, U>(f: T -> seq<U>, x: T)
    ensures FlatMap(f, [x]) == f(x)
  {
    assert [x][..0] == [];
  }

  lemma ShortUserIsPrintable()
    ensures IsPrintablePolicy(ShortUser()) && Names(ShortUser(), "user:x")
  {
    var group := ShortUser().groups[0];
    var part := group.parts[0];
    assert group in ShortUser().groups && part in group.parts;
    assert IsPrintable(part);
    assert Actor(Some("users"), "x") == "user:x" by {
      assert "user:" + "x" == "user:x" && |"x"| < |"user:"|;
    }
  }

  lemma ShortUserIsPrinted()
    ensures CanBeJoined(Render(ShortUser()), [false, false])
    ensures JoinLines(Render(ShortUser()), [false, false]) == "actor_allowlist:\n  users:\n    - x"
  {
    ShortUserLines();
    ThreeLines("actor_allowlist:", "  users:", "    - x");
    assert "actor_allowlist:" + "\n" + ("  users:" + "\n" + "    - x") == "actor_allowlist:\n  users:\n    - x";
  }

  lemma ShortUserIsListed()
    ensures "user:x" in Allowlist(Some("actor_allowlist:\n  users:\n    - x"))
  {
    ShortUserIsPrinted();
    ShortUserIsPrintable();
    LoadUndoesPrint(ShortUser(), [false, false], "user:x");
  }

  /** The account `x`, on the list, may run commands as long as nobody says so: named explicitly it
      is no canonical actor. */
  lemma ShortUserIsTreatedTwoWays(lower: Lowering)
    ensures var accounts := Accounts(None, None, None, Some("x"), None, None);
      var r := RequestUnder(false, Some("actor_allowlist:\n  users:\n    - x"), lower);
      && InferredActor(accounts) == Some("user:x")
      && GateOutcome(r, None, InferredActor(accounts)) == Accepted
      && GateOutcome(r, Some("user:x"), InferredActor(accounts)) == Rejected(NotCanonical)
  {
    var text := "actor_allowlist:\n  users:\n    - x";
    ShortUserIsListed();
    ShortUserIsDerived();
    ListedIsAccepted(RequestUnder(false, Some(text), lower), "user:x");
  }

  lemma OnlyUser(user: string)
    ensures InferredActor(Accounts(None, None, None, Some(user), None, None)) == Derive("user:", Some(user))
  {
  }

  lemma ShortUserIsDerived()
    ensures InferredActor(Accounts(None, None, None, Some("x"), None, None)) == Some("user:x")
    ensures !IsCanonicalActorId("user:x")
  {
    OnlyUser("x");
    ShortUserText();
    UserActor("x");
  }

  lemma Untrimmed(name: string)
    requires name != "" && !IsSpace(name[|name|-1])
    ensures TrimEnd(name) == name
  {
  }

  lemma ShortUserText()
    ensures Derive("user:", Some("x")) == Some("user:x") && "user:" + "x" == "user:x" && !IsName("x")
  {
    var prefix, name, text := "user:", "x", "user:x";
    assert prefix + name == text;
    Untrimmed(name);
    DerivedText(prefix, name);
  }

  lemma ListedIsAccepted(r: Request, actor: string)
    requires actor in r.allowlist
    ensures DerivedOutcome(r, actor) == Accepted
  {
    assert Matches(r.lower, actor, r.allowlist);
  }
}

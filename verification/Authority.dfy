/**
 Capabilities, named sets, attenuation and delegation. A credential is derived
 from another by attenuating it, by exchanging a delegation grant, or, with
 `token:admin`, by minting; no chain of derivations ever amplifies.
 */
module Authority {
  import opened Basics

  /** The vocabulary; `Other` is any string outside it. */
  datatype Capability =
    | WorkspaceRead | WorkspaceWrite | MessagePost | ThreadTransition | ArtifactUpload | SearchQuery | EventSubscribe
    | TokenAdmin | FederationIngest | FederationAdmin | AuditReadGlobal | OperatorGlobal | ChannelAdmin
    | SecretRead | SecretAdmin | ApprovalGrant | WorkspaceAdmin
    | Other(name: string)

  const KNOWN: seq<Capability> := [
    WorkspaceRead, WorkspaceWrite, MessagePost, ThreadTransition, ArtifactUpload, SearchQuery, EventSubscribe,
    TokenAdmin, FederationIngest, FederationAdmin, AuditReadGlobal, OperatorGlobal, ChannelAdmin,
    SecretRead, SecretAdmin, ApprovalGrant, WorkspaceAdmin]

  const DELEGATABLE: seq<Capability> := [
    WorkspaceRead, WorkspaceWrite, MessagePost, ThreadTransition, ArtifactUpload, SearchQuery, EventSubscribe]

  /** Authority over authority, which a grant never lends. */
  const AUTHORITY: set<Capability> := {
    TokenAdmin, ChannelAdmin, SecretRead, SecretAdmin, FederationIngest, FederationAdmin,
    AuditReadGlobal, OperatorGlobal, ApprovalGrant, WorkspaceAdmin}

  const DEFAULT_MINTED: seq<Capability> := [WorkspaceRead, WorkspaceWrite, EventSubscribe, SearchQuery]

  const WORKER: seq<Capability> := [
    WorkspaceRead, WorkspaceWrite, MessagePost, EventSubscribe, SearchQuery, ArtifactUpload, ThreadTransition]

  const ADMIN_ONLY: seq<Capability> := [
    TokenAdmin, ChannelAdmin, SecretRead, SecretAdmin, AuditReadGlobal, OperatorGlobal, WorkspaceAdmin]

  const ADMIN: seq<Capability> := WORKER + ADMIN_ONLY

  const AGENT_WORKER := "maidan.agent.worker"
  const HUMAN_ADMIN := "maidan.human.admin"

  datatype GrantError =
    | EmptyGrant | Unknown(cap: Capability) | NotHeld(cap: Capability) | UnknownSet
    | NotInFuture | OutlivesParent | OutlivesGrant | TooLong
    | Forbidden | OneHop

  type Caps = seq<Capability>

  ghost predicate Within(caps: Caps, held: Caps) {
    forall c :: c in caps ==> c in held
  }

  ghost predicate AllKnown(caps: Caps) {
    Within(caps, KNOWN)
  }

  // -------------------------------------------------------------- containment

  /** The first entry that fails a test, if any. */
  function FirstOutside(held: Caps, requested: Caps): (first: Option<Capability>)
    ensures first.None? <==> Within(requested, held)
    ensures first.Some? ==> first.value in requested && first.value !in held
  {
    if requested == [] then None
    else if requested[0] !in held then Some(requested[0])
    else
      var rest := FirstOutside(held, requested[1..]);
      assert requested == [requested[0]] + requested[1..];
      rest
  }

  function ValidateHeld(held: Caps, requested: Caps): (r: Result<(), GrantError>)
    ensures r.Ok? <==> AllKnown(requested) && Within(requested, held)
  {
    match FirstOutside(KNOWN, requested)
    case Some(cap) => Err(Unknown(cap))
    case None =>
      match FirstOutside(held, requested)
      case Some(cap) => Err(NotHeld(cap))
      case None => Ok(())
  }

  /** Each capability once, where it was first seen. */
  function Firsts(caps: Caps): (out: Caps)
    ensures NoDuplicates(out)
    ensures forall c :: c in out <==> c in caps
  {
    if caps == [] then []
    else
      var last := caps[|caps| - 1];
      var init := Firsts(caps[..|caps| - 1]);
      assert caps == caps[..|caps| - 1] + [last];
      if last in init then init else init + [last]
  }

  function FirstIndex(caps: Caps, c: Capability): (k: nat)
    requires c in caps
    ensures k < |caps| && caps[k] == c && c !in caps[..k]
  {
    if caps[0] == c then 0
    else
      assert caps == [caps[0]] + caps[1..];
      var k := FirstIndex(caps[1..], c);
      assert caps[..k + 1] == [caps[0]] + caps[1..][..k];
      k + 1
  }

  lemma FirstIndexStable(caps: Caps, k: nat, c: Capability)
    requires k <= |caps| && c in caps[..k]
    ensures c in caps && FirstIndex(caps, c) == FirstIndex(caps[..k], c)
  {
    var i, j := FirstIndex(caps, c), FirstIndex(caps[..k], c);
    assert caps[j] == caps[..k][j] == c;
    assert forall m :: 0 <= m < j ==> caps[m] == caps[..k][..j][m];
  }

  /** Removing repeats keeps the order in which capabilities were first seen. */
  lemma {:induction false} FirstsKeepOrder(caps: Caps)
    ensures forall i, j :: 0 <= i < j < |Firsts(caps)| ==>
      FirstIndex(caps, Firsts(caps)[i]) < FirstIndex(caps, Firsts(caps)[j])
  {
    if caps != [] {
      var n := |caps| - 1;
      var init := Firsts(caps[..n]);
      FirstsKeepOrder(caps[..n]);
      forall i, j | 0 <= i < j < |Firsts(caps)|
        ensures FirstIndex(caps, Firsts(caps)[i]) < FirstIndex(caps, Firsts(caps)[j])
      {
        assert init[i] in init;
        FirstIndexStable(caps, n, init[i]);
        if j < |init| {
          assert init[j] in init;
          FirstIndexStable(caps, n, init[j]);
        } else {
          assert caps[n] !in caps[..n];
        }
      }
    }
  }

  method UniqueInOrder(caps: Caps) returns (out: Caps)
    ensures out == Firsts(caps)
  {
    out := [];
    for i := 0 to |caps|
      invariant out == Firsts(caps[..i])
    {
      assert caps[..i + 1][..i] == caps[..i];
      if caps[i] !in out {
        out := out + [caps[i]];
      }
    }
    assert caps[..|caps|] == caps;
  }

  // -------------------------------------------------------------- attenuation

  /** Holder-side attenuation: a known, held, non-empty request, each capability
      once. */
  function Attenuate(held: Caps, requested: Caps): (r: Result<Caps, GrantError>)
    ensures r.Ok? <==> requested != [] && AllKnown(requested) && Within(requested, held)
    ensures r.Ok? ==> NoDuplicates(r.value) && forall c :: c in r.value <==> c in requested
  {
    if requested == [] then Err(EmptyGrant)
    else match ValidateHeld(held, requested)
      case Err(e) => Err(e)
      case Ok(_) => Ok(Firsts(requested))
  }

  function ExpandSet(name: string): Result<Caps, GrantError> {
    if name == AGENT_WORKER then Ok(WORKER)
    else if name == HUMAN_ADMIN then Ok(ADMIN)
    else Err(UnknownSet)
  }

  /** Start from an optional named set, then restrict further. */
  function ProgressiveGrant(held: Caps, name: Option<string>, requested: Caps): Result<Caps, GrantError> {
    match (name, requested == [])
    case (Some(n), true) =>
      (match ExpandSet(n)
       case Err(e) => Err(e)
       case Ok(expanded) =>
         match ValidateHeld(held, expanded)
         case Err(e) => Err(e)
         case Ok(_) => Ok(expanded))
    case (Some(n), false) =>
      (match ExpandSet(n)
       case Err(e) => Err(e)
       case Ok(expanded) =>
         match ValidateHeld(expanded, requested)
         case Err(e) => Err(e)
         case Ok(_) => Attenuate(held, requested))
    case (None, false) => Attenuate(held, requested)
    case (None, true) => Err(EmptyGrant)
  }

  /** The capabilities of `caps` that `keep` has too. */
  function FilterCaps(caps: Caps, keep: Caps): (kept: Caps)
    ensures forall c :: c in kept <==> c in caps && c in keep
    ensures NoDuplicates(caps) ==> NoDuplicates(kept)
  {
    if caps == [] then []
    else
      assert caps == [caps[0]] + caps[1..];
      (if caps[0] in keep then [caps[0]] else []) + FilterCaps(caps[1..], keep)
  }

  /** A grant under a named set is attenuating the part of the holder's grant
      that the set names; with nothing requested, of the whole set. */
  lemma GrantIsAttenuation(held: Caps, name: string, requested: Caps)
    requires ExpandSet(name).Ok?
    ensures var named := ExpandSet(name).value;
      var grant := ProgressiveGrant(held, Some(name), requested);
      && (requested != [] ==>
            && (grant.Ok? <==> Attenuate(FilterCaps(held, named), requested).Ok?)
            && (grant.Ok? ==> grant == Attenuate(FilterCaps(held, named), requested)))
      && (requested == [] ==>
            && (grant.Ok? <==> Attenuate(held, named).Ok?)
            && (grant.Ok? ==> grant == Attenuate(held, named)))
  {
    NamedSetsAreSets();
  }

  /** The named sets repeat nothing and name only what is known. */
  lemma NamedSetsAreSets()
    ensures Firsts(WORKER) == WORKER && Firsts(ADMIN) == ADMIN
    ensures AllKnown(WORKER) && AllKnown(ADMIN)
  {
    WorkerDistinct();
    AdminDistinct();
    NamedSetsKnown();
    DistinctAreFirsts(WORKER);
    DistinctAreFirsts(ADMIN);
  }

  lemma WorkerDistinct()
    ensures NoDuplicates(WORKER)
  {
  }

  lemma AdminDistinct()
    ensures NoDuplicates(ADMIN)
  {
  }

  lemma NamedSetsKnown()
    ensures AllKnown(WORKER) && AllKnown(ADMIN)
  {
  }

  lemma {:induction false} DistinctAreFirsts(caps: Caps)
    requires NoDuplicates(caps)
    ensures Firsts(caps) == caps
  {
    if caps != [] {
      var init := caps[..|caps| - 1];
      DistinctAreFirsts(init);
      assert caps == init + [caps[|caps| - 1]];
    }
  }

  /** Which named sets a credential holds in full. */
  function HeldSets(held: Caps): (names: seq<string>)
    ensures forall n :: n in names <==> ExpandSet(n).Ok? && Within(ExpandSet(n).value, held)
  {
    (if FirstOutside(held, WORKER).None? then [AGENT_WORKER] else [])
    + (if FirstOutside(held, ADMIN).None? then [HUMAN_ADMIN] else [])
  }

  // ------------------------------------------------------------------- expiry

  const DELEGATED_DEFAULT_TTL: int := 900
  const DELEGATED_MAX_TTL: int := 3600

  function AttenuateExpiry(parent: Option<int>, requested: Option<int>, now: int): (r: Result<Option<int>, GrantError>)
    ensures r.Ok? && parent.Some? ==> r.value.Some? && r.value.value <= parent.value
    ensures r.Ok? && requested.Some? ==> r.value == requested && requested.value > now
    ensures r.Ok? && requested.None? ==> r.value == parent
    ensures r.Err? <==> requested.Some? && (requested.value <= now || (parent.Some? && requested.value > parent.value))
  {
    match requested
    case None => Ok(parent)
    case Some(exp) =>
      if exp <= now then Err(NotInFuture)
      else if parent.Some? && exp > parent.value then Err(OutlivesParent)
      else Ok(Some(exp))
  }

  /** The least of every ceiling, when none is asked for. */
  method DelegatedExpiry(grant: int, parent: Option<int>, requested: Option<int>, now: int)
    returns (r: Result<int, GrantError>)
    ensures r == DelegatedUntil(grant, parent, requested, now)
  {
    var expires := now + DELEGATED_DEFAULT_TTL;
    if requested.Some? {
      expires := requested.value;
    } else {
      expires := Min(expires, grant);
      if parent.Some? {
        expires := Min(expires, parent.value);
      }
    }
    if expires <= now {
      return Err(NotInFuture);
    }
    if expires > now + DELEGATED_MAX_TTL {
      return Err(TooLong);
    }
    if expires > grant {
      return Err(OutlivesGrant);
    }
    if parent.Some? && expires > parent.value {
      return Err(OutlivesParent);
    }
    r := Ok(expires);
  }

  /** How late a delegated bearer may last. */
  function Ceiling(grant: int, parent: Option<int>, now: int): int {
    var cap := Min(now + DELEGATED_MAX_TTL, grant);
    if parent.Some? then Min(cap, parent.value) else cap
  }

  function DelegatedUntil(grant: int, parent: Option<int>, requested: Option<int>, now: int): (r: Result<int, GrantError>)
    ensures r.Ok? ==> now < r.value <= Ceiling(grant, parent, now)
    ensures requested.Some? ==> (r.Ok? <==> now < requested.value <= Ceiling(grant, parent, now))
    ensures requested.Some? && r.Ok? ==> r.value == requested.value
    ensures requested.None? ==> (r.Ok? <==> now < Ceiling(grant, parent, now))
    ensures requested.None? && r.Ok? ==> r.value == Min(Ceiling(grant, parent, now), now + DELEGATED_DEFAULT_TTL)
  {
    var limit := Ceiling(grant, parent, now);
    var asked := if requested.Some? then requested.value else Min(limit, now + DELEGATED_DEFAULT_TTL);
    if asked <= now then Err(NotInFuture)
    else if asked > now + DELEGATED_MAX_TTL then Err(TooLong)
    else if asked > grant then Err(OutlivesGrant)
    else if parent.Some? && asked > parent.value then Err(OutlivesParent)
    else Ok(asked)
  }

  // -------------------------------------------------------- chains of derivation

  datatype Credential = Credential(caps: Caps, expires: Option<int>, delegated: bool)

  datatype Derivation =
    | Attenuated(requested: Caps, until: Option<int>)
    | Delegated(grant: Caps, grantUntil: int, requested: Caps, until: Option<int>)
    | Minted(name: Option<string>, requested: Caps, until: Option<int>)

  /** What `token:admin` may grant: everything known but the two cross-tenant
      capabilities, unless the caller holds them. */
  function MintVocabulary(held: Caps): (vocabulary: Caps)
    ensures forall c :: c in vocabulary <==>
      c in KNOWN && ((c != OperatorGlobal && c != AuditReadGlobal) || c in held)
  {
    FilterVocabulary(KNOWN, held)
  }

  function FilterVocabulary(caps: Caps, held: Caps): (kept: Caps)
    ensures forall c :: c in kept <==> c in caps && ((c != OperatorGlobal && c != AuditReadGlobal) || c in held)
  {
    if caps == [] then []
    else
      assert caps == [caps[0]] + caps[1..];
      (if (caps[0] != OperatorGlobal && caps[0] != AuditReadGlobal) || caps[0] in held then [caps[0]] else [])
      + FilterVocabulary(caps[1..], held)
  }

  /** The attenuation route checks its result against the mint vocabulary once
      more; that check never refuses anything. */
  lemma RecheckNeverRefuses(held: Caps, requested: Caps)
    requires Attenuate(held, requested).Ok?
    ensures FirstOutside(MintVocabulary(held), Attenuate(held, requested).value).None?
  {
  }

  function MintCaps(held: Caps, name: Option<string>, requested: Caps): Result<Caps, GrantError> {
    var asked := if name.None? && requested == [] then Ok(DEFAULT_MINTED)
                 else ProgressiveGrant(MintVocabulary(held), name, requested);
    match asked
    case Err(e) => Err(e)
    case Ok(caps) =>
      match FirstOutside(held, caps)
      case Some(_) => Err(Forbidden)
      case None => Ok(caps)
  }

  /** Derive a credential; the context of a delegated one drops authority. */
  function Derive(parent: Credential, d: Derivation, now: int): Result<Credential, GrantError> {
    match d
    case Attenuated(requested, until) =>
      if WorkspaceRead !in parent.caps then Err(Forbidden)
      else (match Attenuate(parent.caps, requested)
        case Err(e) => Err(e)
        case Ok(caps) =>
          match AttenuateExpiry(parent.expires, until, now)
          case Err(e) => Err(e)
          case Ok(expires) => Ok(Credential(caps, expires, parent.delegated)))
    case Delegated(grant, grantUntil, requested, until) =>
      if WorkspaceRead !in parent.caps then Err(Forbidden)
      else if parent.delegated then Err(OneHop)
      else if grantUntil <= now then Err(Forbidden)
      else
        var asked := if requested == [] then FilterCaps(grant, parent.caps) else requested;
        (match Attenuate(grant, asked)
         case Err(e) => Err(e)
         case Ok(lent) =>
           match Attenuate(parent.caps, lent)
           case Err(e) => Err(e)
           case Ok(caps) =>
             match DelegatedUntil(grantUntil, parent.expires, until, now)
             case Err(e) => Err(e)
             case Ok(expires) => Ok(Credential(FilterCaps(caps, DELEGATABLE), Some(expires), true)))
    case Minted(name, requested, until) =>
      if TokenAdmin !in parent.caps then Err(Forbidden)
      else match MintCaps(parent.caps, name, requested)
        case Err(e) => Err(e)
        case Ok(caps) => Ok(Credential(caps, until, false))
  }

  /** Each credential was derived from the one before it. */
  ghost predicate Chain(creds: seq<Credential>, steps: seq<(Derivation, int)>) {
    && |creds| == |steps| + 1
    && forall i :: 0 <= i < |steps| ==> Derive(creds[i], steps[i].0, steps[i].1) == Ok(creds[i + 1])
  }

  /** What a derivation leaves of its parent. */
  ghost predicate Narrows(parent: Credential, d: Derivation, child: Credential) {
    && Within(child.caps, parent.caps) && NoDuplicates(child.caps) && AllKnown(child.caps)
    && (d.Minted? ==> TokenAdmin in parent.caps && child.expires == d.until)
    && (d.Attenuated? ==> child.delegated == parent.delegated && Bounds(parent.expires, child.expires))
    && (d.Delegated? ==>
          && child.delegated && Within(child.caps, DELEGATABLE)
          && Bounds(parent.expires, child.expires) && Bounds(Some(d.grantUntil), child.expires))
  }

  /** An expiry that is bounded by another, if there is another. */
  predicate Bounds(bound: Option<int>, expires: Option<int>) {
    bound.Some? ==> expires.Some? && expires.value <= bound.value
  }

  lemma GrantCaps(held: Caps, name: Option<string>, requested: Caps)
    requires ProgressiveGrant(held, name, requested).Ok?
    ensures var caps := ProgressiveGrant(held, name, requested).value;
      Within(caps, held) && NoDuplicates(caps) && AllKnown(caps)
  {
    if name.Some? && requested == [] {
      NamedSetsAreSets();
    }
  }

  lemma DefaultsKnown()
    ensures NoDuplicates(DEFAULT_MINTED) && AllKnown(DEFAULT_MINTED)
  {
  }

  lemma MintedCaps(held: Caps, name: Option<string>, requested: Caps)
    requires MintCaps(held, name, requested).Ok?
    ensures var caps := MintCaps(held, name, requested).value;
      Within(caps, held) && NoDuplicates(caps) && AllKnown(caps)
  {
    if name.None? && requested == [] {
      DefaultsKnown();
    } else {
      GrantCaps(MintVocabulary(held), name, requested);
    }
  }

  lemma DerivedNarrows(parent: Credential, d: Derivation, now: int)
    requires Derive(parent, d, now).Ok?
    ensures Narrows(parent, d, Derive(parent, d, now).value)
  {
    if d.Minted? {
      MintedCaps(parent.caps, d.name, d.requested);
    }
  }

  ghost predicate Narrowing(creds: seq<Credential>, steps: seq<(Derivation, int)>) {
    && |creds| == |steps| + 1
    && forall i :: 0 <= i < |steps| ==> Narrows(creds[i], steps[i].0, creds[i + 1])
  }

  lemma ChainNarrows(creds: seq<Credential>, steps: seq<(Derivation, int)>)
    requires Chain(creds, steps)
    ensures Narrowing(creds, steps)
  {
    forall i | 0 <= i < |steps| ensures Narrows(creds[i], steps[i].0, creds[i + 1]) {
      assert Derive(creds[i], steps[i].0, steps[i].1) == Ok(creds[i + 1]);
      DerivedNarrows(creds[i], steps[i].0, steps[i].1);
    }
  }

  lemma {:induction false} CapsNarrow(creds: seq<Credential>, steps: seq<(Derivation, int)>, i: nat, j: nat)
    requires Narrowing(creds, steps) && i < j < |creds|
    ensures Within(creds[j].caps, creds[i].caps) && NoDuplicates(creds[j].caps) && AllKnown(creds[j].caps)
    decreases j - i
  {
    assert Narrows(creds[j - 1], steps[j - 1].0, creds[j]);
    if i < j - 1 {
      CapsNarrow(creds, steps, i, j - 1);
    }
  }

  /** No chain amplifies: what a credential may do, every ancestor could; it names
      each capability once and only known ones. */
  lemma AuthorityOnlyShrinks(creds: seq<Credential>, steps: seq<(Derivation, int)>, i: nat, j: nat)
    requires Chain(creds, steps) && i < j < |creds|
    ensures Within(creds[j].caps, creds[i].caps) && NoDuplicates(creds[j].caps) && AllKnown(creds[j].caps)
  {
    ChainNarrows(creds, steps);
    CapsNarrow(creds, steps, i, j);
  }

  /** The worker's set is all the work that can be delegated and no authority; an
      unnamed mint gets work only. */
  lemma WorkerSet()
    ensures forall c :: c in WORKER <==> c in DELEGATABLE
    ensures forall c :: c in WORKER || c in DEFAULT_MINTED ==> c !in AUTHORITY
    ensures ExpandSet(AGENT_WORKER) == Ok(WORKER)
  {
  }

  lemma AdminOnlySet()
    ensures forall c :: c in ADMIN_ONLY <==>
      c in AUTHORITY && c != FederationIngest && c != FederationAdmin && c != ApprovalGrant
  {
  }

  lemma ConcatHolds(a: Caps, b: Caps, c: Capability)
    ensures c in a + b <==> c in a || c in b
  {
  }

  /** The admin's set is the worker's, and authority only. */
  lemma AdminSet(c: Capability)
    ensures c in ADMIN <==>
      c in WORKER || (c in AUTHORITY && c != FederationIngest && c != FederationAdmin && c != ApprovalGrant)
    ensures ExpandSet(HUMAN_ADMIN) == Ok(ADMIN)
  {
    ConcatHolds(WORKER, ADMIN_ONLY, c);
    AdminOnlySet();
  }

  /** What an attenuation grants, in full: exactly what was asked for and held, for
      as long as was asked for or as the parent lasts. */
  lemma AttenuatesExactly(parent: Credential, requested: Caps, until: Option<int>, now: int)
    ensures var r := Derive(parent, Attenuated(requested, until), now);
      && (r.Ok? <==>
            && WorkspaceRead in parent.caps && requested != [] && AllKnown(requested) && Within(requested, parent.caps)
            && (until.Some? ==> until.value > now && Bounds(parent.expires, until)))
      && (r.Ok? ==>
            && (forall c :: c in r.value.caps <==> c in requested)
            && r.value.expires == (if until.Some? then until else parent.expires)
            && r.value.delegated == parent.delegated)
  {
  }

  /** There is something to lend, all of it known, lent and held. */
  ghost predicate Lendable(held: Caps, grant: Caps, requested: Caps) {
    if requested == [] then
      && (exists c :: c in grant && c in held)
      && (forall c :: c in grant && c in held ==> c in KNOWN)
    else AllKnown(requested) && Within(requested, grant) && Within(requested, held)
  }

  /** What a delegation asks for, and what of it is lent. */
  function AskedOf(held: Caps, grant: Caps, requested: Caps): Caps {
    if requested == [] then FilterCaps(grant, held) else requested
  }

  lemma LendsExactly(held: Caps, grant: Caps, requested: Caps)
    ensures var asked := AskedOf(held, grant, requested);
      && (Attenuate(grant, asked).Ok? && Attenuate(held, Attenuate(grant, asked).value).Ok? <==>
            Lendable(held, grant, requested))
      && (Lendable(held, grant, requested) ==> forall c :: c in Attenuate(grant, asked).value <==>
            c in grant && c in held && (requested == [] || c in requested))
  {
    var asked := AskedOf(held, grant, requested);
    HasMember(asked);
    if Attenuate(grant, asked).Ok? {
      var lent := Attenuate(grant, asked).value;
      assert asked[0] in asked && asked[0] in lent;
    }
  }

  /** What a delegation grants, in full: of what was asked for, or of all that the
      grant lends and the delegate holds, the work; within every ceiling. */
  lemma DelegatesExactly(parent: Credential, grant: Caps, grantUntil: int, requested: Caps, until: Option<int>, now: int)
    ensures var r := Derive(parent, Delegated(grant, grantUntil, requested, until), now);
      var ceiling := Ceiling(grantUntil, parent.expires, now);
      && (r.Ok? <==>
            && WorkspaceRead in parent.caps && !parent.delegated && now < grantUntil
            && Lendable(parent.caps, grant, requested)
            && now < (if until.Some? then until.value else ceiling) <= ceiling)
      && (r.Ok? ==>
            && (forall c :: c in r.value.caps <==>
                  c in DELEGATABLE && c in grant && c in parent.caps && (requested == [] || c in requested))
            && r.value.expires == Some(if until.Some? then until.value else Min(ceiling, now + DELEGATED_DEFAULT_TTL))
            && r.value.delegated)
  {
    LendsExactly(parent.caps, grant, requested);
    var asked := AskedOf(parent.caps, grant, requested);
    if Attenuate(grant, asked).Ok? {
      var lent := Attenuate(grant, asked).value;
      var caps := Attenuate(parent.caps, lent);
      assert caps.Ok? ==> forall c :: c in caps.value <==> c in lent;
    }
  }

  /** The capabilities a mint is asked for, if it names a known set or none. */
  function MintAsks(name: Option<string>, requested: Caps): Result<Caps, GrantError> {
    if requested != [] then Ok(requested)
    else if name.None? then Ok(DEFAULT_MINTED)
    else ExpandSet(name.value)
  }

  lemma InVocabulary(held: Caps, caps: Caps)
    ensures Within(caps, MintVocabulary(held)) && Within(caps, held) <==> AllKnown(caps) && Within(caps, held)
  {
  }

  /** A mint may grant these: known and held, and in the named set, if any. */
  ghost predicate Mintable(held: Caps, name: Option<string>, asked: Caps) {
    && AllKnown(asked) && Within(asked, held)
    && (name.Some? ==> ExpandSet(name.value).Ok? && Within(asked, ExpandSet(name.value).value))
  }

  lemma MintedBySet(held: Caps, name: string)
    ensures var r := MintCaps(held, Some(name), []);
      && (r.Ok? <==> ExpandSet(name).Ok? && Within(ExpandSet(name).value, held))
      && (r.Ok? ==> r.value == ExpandSet(name).value)
  {
    NamedSetsKnown();
    if ExpandSet(name).Ok? {
      InVocabulary(held, ExpandSet(name).value);
    }
  }

  lemma MintedByRequest(held: Caps, name: Option<string>, requested: Caps)
    requires requested != []
    ensures var r := MintCaps(held, name, requested);
      && (r.Ok? <==> Mintable(held, name, requested))
      && (r.Ok? ==> forall c :: c in r.value <==> c in requested)
  {
    InVocabulary(held, requested);
    var granted := Attenuate(MintVocabulary(held), requested);
    assert granted.Ok? ==> (FirstOutside(held, granted.value).None? <==> Within(requested, held));
  }

  /** What a mint grants, in full: what was asked for, or the named set, or the
      default, when the holder has all of it and the named set allows it. */
  lemma MintsExactly(parent: Credential, name: Option<string>, requested: Caps, until: Option<int>, now: int)
    ensures var r := Derive(parent, Minted(name, requested, until), now);
      var asked := MintAsks(name, requested);
      && (r.Ok? <==> TokenAdmin in parent.caps && asked.Ok? && Mintable(parent.caps, name, asked.value))
      && (r.Ok? ==>
            && (forall c :: c in r.value.caps <==> c in asked.value)
            && r.value.expires == until && !r.value.delegated)
  {
    if requested != [] {
      MintedByRequest(parent.caps, name, requested);
    } else if name.Some? {
      NamedSetsKnown();
      MintedBySet(parent.caps, name.value);
    } else {
      DefaultsKnown();
    }
  }

  lemma WorkIsNotAuthority()
    ensures forall c :: c in DELEGATABLE ==> c in KNOWN && c !in AUTHORITY
    ensures forall c :: c in KNOWN ==> c in DELEGATABLE || c in AUTHORITY
  {
  }

  lemma {:induction false} DelegatedStays(creds: seq<Credential>, steps: seq<(Derivation, int)>, i: nat, j: nat)
    requires Narrowing(creds, steps) && 0 < i <= j < |creds| && steps[i - 1].0.Delegated?
    requires forall k :: i <= k < j && steps[k].0.Delegated? ==> !creds[k].delegated
    ensures creds[j].delegated && Within(creds[j].caps, DELEGATABLE)
    ensures i < j ==> steps[j - 1].0.Attenuated?
    decreases j - i
  {
    assert Narrows(creds[j - 1], steps[j - 1].0, creds[j]);
    if i < j {
      DelegatedStays(creds, steps, i, j - 1);
      assert TokenAdmin !in DELEGATABLE;
    }
  }

  lemma OneHopOnly(creds: seq<Credential>, steps: seq<(Derivation, int)>)
    requires Chain(creds, steps)
    ensures forall k :: 0 <= k < |steps| && steps[k].0.Delegated? ==> !creds[k].delegated
  {
    forall k | 0 <= k < |steps| && steps[k].0.Delegated? ensures !creds[k].delegated {
      assert Derive(creds[k], steps[k].0, steps[k].1) == Ok(creds[k + 1]);
    }
  }

  /** Once a chain passes through a delegated context, no authority capability
      ever reappears, and nothing after it is minted or delegated. */
  lemma DelegationEndsAuthority(creds: seq<Credential>, steps: seq<(Derivation, int)>, i: nat, j: nat)
    requires Chain(creds, steps) && 0 < i <= j < |creds| && steps[i - 1].0.Delegated?
    ensures creds[j].delegated && forall c :: c in creds[j].caps ==> c in DELEGATABLE && c !in AUTHORITY
    ensures i < j ==> steps[j - 1].0.Attenuated?
  {
    WorkIsNotAuthority();
    ChainNarrows(creds, steps);
    OneHopOnly(creds, steps);
    DelegatedStays(creds, steps, i, j);
  }

  /** Every mint after `i` and before `j` is until a time within `creds[i]`'s. */
  ghost predicate MintsWithin(creds: seq<Credential>, steps: seq<(Derivation, int)>, i: nat, j: nat)
    requires i <= j <= |steps| < |creds|
  {
    forall k :: i <= k < j && steps[k].0.Minted? ==> Bounds(creds[i].expires, steps[k].0.until)
  }

  lemma {:induction false} BoundStays(creds: seq<Credential>, steps: seq<(Derivation, int)>, i: nat, j: nat)
    requires Narrowing(creds, steps) && i <= j < |creds| && MintsWithin(creds, steps, i, j)
    ensures Bounds(creds[i].expires, creds[j].expires)
    decreases j - i
  {
    if i < j {
      BoundStays(creds, steps, i, j - 1);
      assert Narrows(creds[j - 1], steps[j - 1].0, creds[j]);
    }
  }

  /** A credential bounds all that is derived from it, to the end of a chain,
      exactly when every mint on the way is until a time within its expiry. */
  lemma ExpiryOnlyShrinks(creds: seq<Credential>, steps: seq<(Derivation, int)>, i: nat, j: nat)
    requires Chain(creds, steps) && i <= j < |creds|
    ensures (forall k :: i <= k <= j ==> Bounds(creds[i].expires, creds[k].expires)) <==> MintsWithin(creds, steps, i, j)
  {
    ChainNarrows(creds, steps);
    if MintsWithin(creds, steps, i, j) {
      forall k | i <= k <= j ensures Bounds(creds[i].expires, creds[k].expires) {
        BoundStays(creds, steps, i, k);
      }
    } else {
      var k :| i <= k < j && steps[k].0.Minted? && !Bounds(creds[i].expires, steps[k].0.until);
      assert Narrows(creds[k], steps[k].0, creds[k + 1]);
    }
  }

  /** After a delegation the bound needs no proviso: it holds for good. */
  lemma DelegationBoundsExpiry(creds: seq<Credential>, steps: seq<(Derivation, int)>, i: nat, j: nat)
    requires Chain(creds, steps) && 0 < i <= j < |creds| && steps[i - 1].0.Delegated?
    ensures creds[j].expires.Some? && creds[j].expires.value <= steps[i - 1].0.grantUntil
    ensures creds[i - 1].expires.Some? ==> creds[j].expires.value <= creds[i - 1].expires.value
  {
    ChainNarrows(creds, steps);
    OneHopOnly(creds, steps);
    DelegationHolds(creds, steps, i, j);
  }

  lemma DelegationHolds(creds: seq<Credential>, steps: seq<(Derivation, int)>, i: nat, j: nat)
    requires Narrowing(creds, steps) && 0 < i <= j < |creds| && steps[i - 1].0.Delegated?
    requires forall k :: 0 <= k < |steps| && steps[k].0.Delegated? ==> !creds[k].delegated
    ensures creds[j].expires.Some? && creds[j].expires.value <= steps[i - 1].0.grantUntil
    ensures Bounds(creds[i - 1].expires, creds[j].expires)
  {
    assert Narrows(creds[i - 1], steps[i - 1].0, creds[i]);
    forall k | i <= k < j ensures !steps[k].0.Minted? {
      DelegatedStays(creds, steps, i, k + 1);
    }
    BoundStays(creds, steps, i, j);
  }

  /** A derived credential is bounded by its parent's expiry exactly when it was
      not minted, or was minted until a time within it. */
  lemma BoundedExactly(parent: Credential, d: Derivation, now: int)
    requires Derive(parent, d, now).Ok?
    ensures Bounds(parent.expires, Derive(parent, d, now).value.expires)
       <==> (d.Minted? ==> Bounds(parent.expires, d.until))
  {
    DerivedNarrows(parent, d, now);
  }

  lemma MintsOne(held: Caps, cap: Capability)
    requires cap in held && cap in KNOWN
    ensures MintCaps(held, None, [cap]) == Ok([cap])
  {
    assert Firsts([cap]) == [cap] by {
      DistinctAreFirsts([cap]);
    }
    assert cap in MintVocabulary(held);
    assert Attenuate(MintVocabulary(held), [cap]) == Ok([cap]);
    assert FirstOutside(held, [cap]).None?;
  }

  /** A mint is the exception: `token:admin` may hand out any capability it
      holds for as long as it likes, past its own expiry too. */
  lemma MintMayOutlive(parent: Credential, cap: Capability, until: Option<int>, now: int)
    requires TokenAdmin in parent.caps && cap in parent.caps && cap in KNOWN
    ensures Derive(parent, Minted(None, [cap], until), now) == Ok(Credential([cap], until, false))
  {
    MintsOne(parent.caps, cap);
  }
}

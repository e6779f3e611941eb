/**
 Who may read a thread, and the two places that answer it in bulk: a
 query-level deny set before the authoritative filter, and the memo table of
 the event back-fill. Every read of the store can fail; a failure is never
 taken for an answer.
 */
module Visibility {
  import opened Basics

  type Id = nat

  datatype Channel = Channel(workspace: Id, isDm: bool, private: bool)

  /** The rows the access rule reads. */
  datatype Data = Data(
    threads: map<Id, Id>,             // thread -> its channel
    channels: map<Id, Channel>,
    listed: map<Id, seq<Id>>,         // workspace -> its channels, as listed
    members: set<(Id, Id)>,           // (channel, member)
    dms: map<Id, (Id, Id)>,           // thread -> the two members
    groups: map<Id, set<Id>>)         // thread -> the group's members
  {
    /** A listing names channels of its own workspace. */
    ghost predicate Valid() {
      forall w, i :: w in listed && 0 <= i < |listed[w]| ==>
        listed[w][i] in channels && channels[listed[w][i]].workspace == w
    }
  }

  datatype Auth = Auth(member: Id, workspace: Id, bypass: bool)

  datatype StoreError = NotFound | Database

  datatype AuthError = Store(error: StoreError) | Forbidden

  datatype Scope = Scope(workspace: Id, channel: Id, thread: Id)

  // ------------------------------------------------------------------ the rule

  /** The members of the conversation behind a direct-message thread. */
  predicate Participates(d: Data, member: Id, thread: Id) {
    if thread in d.dms then d.dms[thread].0 == member || d.dms[thread].1 == member
    else thread in d.groups && member in d.groups[thread]
  }

  /** The rule in words: the thread and its channel exist, in the caller's
      workspace; a direct message is for its participants, a private channel
      for its members, any other channel for the workspace. */
  predicate MayRead(d: Data, auth: Auth, thread: Id) {
    && thread in d.threads && d.threads[thread] in d.channels
    && var c := d.threads[thread];
       var channel := d.channels[c];
       && channel.workspace == auth.workspace
       && if channel.isDm then Participates(d, auth.member, thread)
          else channel.private ==> (c, auth.member) in d.members
  }

  predicate Exists(d: Data, thread: Id) {
    thread in d.threads && d.threads[thread] in d.channels
  }

  /** What `can_access_thread` answers when no read fails. */
  function CanAccess(d: Data, auth: Auth, thread: Id): Result<bool, AuthError> {
    if auth.bypass then Ok(true)
    else if !Exists(d, thread) then Err(Store(NotFound))
    else Ok(MayRead(d, auth, thread))
  }

  /** What `authorize_thread` answers when no read fails. */
  function Authorize(d: Data, auth: Auth, thread: Id): Result<Scope, AuthError> {
    if !Exists(d, thread) then Err(Store(NotFound))
    else if auth.bypass || MayRead(d, auth, thread) then
      Ok(Scope(d.channels[d.threads[thread]].workspace, d.threads[thread], thread))
    else Err(Forbidden)
  }

  /** Tenant isolation: whoever the caller is and whatever the rows say, a thread
      of another workspace is refused, unless the caller bypasses the rule. */
  lemma TenantsApart(d: Data, auth: Auth, thread: Id)
    requires Exists(d, thread) && d.channels[d.threads[thread]].workspace != auth.workspace && !auth.bypass
    ensures CanAccess(d, auth, thread) == Ok(false) && Authorize(d, auth, thread) == Err(Forbidden)
  {
  }

  /** Who of a workspace may read a thread: of a conversation between two both of
      them and nobody else, of a group its members, of a private channel its
      members, of any other channel everyone. */
  lemma Readers(d: Data, auth: Auth, thread: Id)
    requires Exists(d, thread) && d.channels[d.threads[thread]].workspace == auth.workspace && !auth.bypass
    ensures var c := d.threads[thread];
      var channel := d.channels[c];
      var granted := CanAccess(d, auth, thread) == Ok(true);
      && (granted <==> Authorize(d, auth, thread) == Ok(Scope(auth.workspace, c, thread)))
      && (channel.isDm && thread in d.dms ==> (granted <==> auth.member in {d.dms[thread].0, d.dms[thread].1}))
      && (channel.isDm && thread !in d.dms ==> (granted <==> thread in d.groups && auth.member in d.groups[thread]))
      && (!channel.isDm && channel.private ==> (granted <==> (c, auth.member) in d.members))
      && (!channel.isDm && !channel.private ==> granted)
  {
  }

  // --------------------------------------------------------- reading the store

  /** Which of a store's reads fail, by their number. */
  type Faults = nat -> bool

  /** One of the reads from `a` up to `b` failed. */
  ghost predicate Failed(faults: Faults, a: nat, b: nat) {
    exists i: nat :: a <= i < b && faults(i)
  }

  /** `r` answers `want`, exactly unless one of its own reads, from `a` up to `b`,
      failed: then it is that failure. */
  ghost predicate Exact<T>(r: Result<T, AuthError>, want: Result<T, AuthError>, faults: Faults, a: nat, b: nat) {
    a <= b && r == if Failed(faults, a, b) then Err(Store(Database)) else want
  }

  lemma FailedJoins(faults: Faults, a: nat, b: nat, c: nat)
    requires a <= b <= c
    ensures Failed(faults, a, c) <==> Failed(faults, a, b) || Failed(faults, b, c)
  {
  }

  /** A fixed store whose reads fail as `faults` says. */
  class FaultyStore {
    const data: Data
    const faults: Faults
    var made: nat

    constructor (data: Data, faults: Faults)
      ensures this.data == data && this.faults == faults && made == 0
    {
      this.data, this.faults, made := data, faults, 0;
    }

    /** One read; whether it fails. */
    method Read() returns (fails: bool)
      modifies this
      ensures made == old(made) + 1 && fails == Failed(faults, old(made), made)
    {
      fails := faults(made);
      made := made + 1;
    }

    method GetThread(thread: Id) returns (r: Result<Id, AuthError>)
      modifies this
      ensures Exact(r, if thread in data.threads then Ok(data.threads[thread]) else Err(Store(NotFound)), faults, old(made), made)
    {
      var fails := Read();
      r := if fails then Err(Store(Database))
           else if thread in data.threads then Ok(data.threads[thread]) else Err(Store(NotFound));
    }

    method GetChannel(channel: Id) returns (r: Result<Channel, AuthError>)
      modifies this
      ensures Exact(r, if channel in data.channels then Ok(data.channels[channel]) else Err(Store(NotFound)), faults, old(made), made)
    {
      var fails := Read();
      r := if fails then Err(Store(Database))
           else if channel in data.channels then Ok(data.channels[channel]) else Err(Store(NotFound));
    }

    method IsMember(channel: Id, member: Id) returns (r: Result<bool, AuthError>)
      modifies this
      ensures Exact(r, Ok((channel, member) in data.members), faults, old(made), made)
    {
      var fails := Read();
      r := if fails then Err(Store(Database)) else Ok((channel, member) in data.members);
    }

    method DmFor(thread: Id) returns (r: Result<Option<(Id, Id)>, AuthError>)
      modifies this
      ensures Exact(r, Ok(if thread in data.dms then Some(data.dms[thread]) else None), faults, old(made), made)
    {
      var fails := Read();
      r := if fails then Err(Store(Database)) else Ok(if thread in data.dms then Some(data.dms[thread]) else None);
    }

    method GroupFor(thread: Id) returns (r: Result<Option<set<Id>>, AuthError>)
      modifies this
      ensures Exact(r, Ok(if thread in data.groups then Some(data.groups[thread]) else None), faults, old(made), made)
    {
      var fails := Read();
      r := if fails then Err(Store(Database)) else Ok(if thread in data.groups then Some(data.groups[thread]) else None);
    }

    method ListChannels(workspace: Id) returns (r: Result<seq<Id>, AuthError>)
      modifies this
      ensures Exact(r, Ok(if workspace in data.listed then data.listed[workspace] else []), faults, old(made), made)
    {
      var fails := Read();
      r := if fails then Err(Store(Database)) else Ok(if workspace in data.listed then data.listed[workspace] else []);
    }
  }

  method EnsureDmParticipant(store: FaultyStore, auth: Auth, thread: Id) returns (r: Result<(), AuthError>)
    modifies store
    ensures Exact(r, if Participates(store.data, auth.member, thread) then Ok(()) else Err(Forbidden), store.faults, old(store.made), store.made)
  {
    ghost var before := store.made;
    var dm := store.DmFor(thread);
    if dm.Err? {
      return Err(dm.error);
    }
    ghost var mid := store.made;
    if dm.value.Some? {
      if dm.value.value.0 == auth.member || dm.value.value.1 == auth.member {
        return Ok(());
      }
    } else {
      var group := store.GroupFor(thread);
      FailedJoins(store.faults, before, mid, store.made);
      if group.Err? {
        return Err(group.error);
      }
      if group.value.Some? && auth.member in group.value.value {
        return Ok(());
      }
    }
    r := Err(Forbidden);
  }

  method AuthorizeThread(store: FaultyStore, auth: Auth, thread: Id) returns (r: Result<Scope, AuthError>)
    modifies store
    ensures Exact(r, Authorize(store.data, auth, thread), store.faults, old(store.made), store.made)
  {
    ghost var before := store.made;
    var c := store.GetThread(thread);
    if c.Err? {
      return Err(c.error);
    }
    ghost var mid := store.made;
    var channel := store.GetChannel(c.value);
    FailedJoins(store.faults, before, mid, store.made);
    ghost var late := store.made;
    if channel.Err? {
      return Err(channel.error);
    }
    var scope := Scope(channel.value.workspace, c.value, thread);
    if auth.bypass {
      return Ok(scope);
    }
    if channel.value.workspace != auth.workspace {
      return Err(Forbidden);
    }
    if channel.value.isDm {
      var participant := EnsureDmParticipant(store, auth, thread);
      FailedJoins(store.faults, before, late, store.made);
      if participant.Err? {
        return Err(participant.error);
      }
    } else if channel.value.private {
      var member := store.IsMember(c.value, auth.member);
      FailedJoins(store.faults, before, late, store.made);
      if member.Err? {
        return Err(member.error);
      }
      if !member.value {
        return Err(Forbidden);
      }
    }
    r := Ok(scope);
  }

  method CanAccessThread(store: FaultyStore, auth: Auth, thread: Id) returns (r: Result<bool, AuthError>)
    modifies store
    ensures Exact(r, CanAccess(store.data, auth, thread), store.faults, old(store.made), store.made)
  {
    if auth.bypass {
      return Ok(true);
    }
    var scope := AuthorizeThread(store, auth, thread);
    match scope
    case Ok(_) => r := Ok(true);
    case Err(Forbidden) => r := Ok(false);
    case Err(e) => r := Err(e);
  }

  // --------------------------------------------------------------- the deny set

  predicate Denied(d: Data, auth: Auth, channel: Id)
    requires channel in d.channels
  {
    d.channels[channel].private && !d.channels[channel].isDm && (channel, auth.member) !in d.members
  }

  function DenyList(d: Data, auth: Auth, channels: seq<Id>): (deny: seq<Id>)
    requires forall i :: 0 <= i < |channels| ==> channels[i] in d.channels
    ensures forall c :: c in deny <==> c in channels && c in d.channels && Denied(d, auth, c)
  {
    if channels == [] then []
    else
      var last := channels[|channels| - 1];
      assert channels == channels[..|channels| - 1] + [last];
      DenyList(d, auth, channels[..|channels| - 1]) + if Denied(d, auth, last) then [last] else []
  }

  /** The channels to leave out of a query for this caller. */
  function DenySet(d: Data, auth: Auth, workspace: Id): seq<Id>
    requires d.Valid()
  {
    if auth.bypass || workspace !in d.listed then [] else DenyList(d, auth, d.listed[workspace])
  }

  method PrivateChannelDenySet(store: FaultyStore, auth: Auth, workspace: Id) returns (r: Result<seq<Id>, AuthError>)
    requires store.data.Valid()
    modifies store
    ensures Exact(r, Ok(DenySet(store.data, auth, workspace)), store.faults, old(store.made), store.made)
  {
    if auth.bypass {
      return Ok([]);
    }
    ghost var before := store.made;
    var channels := store.ListChannels(workspace);
    if channels.Err? {
      return Err(channels.error);
    }
    var deny: seq<Id> := [];
    for i := 0 to |channels.value|
      invariant before <= store.made && !Failed(store.faults, before, store.made)
      invariant deny == DenyList(store.data, auth, channels.value[..i])
    {
      var c := channels.value[i];
      var row := store.data.channels[c];
      assert channels.value[..i + 1][..i] == channels.value[..i];
      if row.private && !row.isDm {
        ghost var mid := store.made;
        var member := store.IsMember(c, auth.member);
        FailedJoins(store.faults, before, mid, store.made);
        if member.Err? {
          return Err(member.error);
        }
        if !member.value {
          deny := deny + [c];
        }
      }
    }
    assert channels.value[..|channels.value|] == channels.value;
    r := Ok(deny);
  }

  /** The authoritative filter of a result list: the first thread that no longer
      exists fails the whole list. */
  function Visible(d: Data, auth: Auth, hits: seq<Id>): Result<seq<Id>, AuthError> {
    if hits == [] then Ok([])
    else
      match CanAccess(d, auth, hits[0])
      case Err(e) => Err(e)
      case Ok(allowed) =>
        match Visible(d, auth, hits[1..])
        case Err(e) => Err(e)
        case Ok(rest) => Ok((if allowed then [hits[0]] else []) + rest)
  }

  /** What the query leaves out: hits in denied channels. */
  function Without(d: Data, hits: seq<Id>, deny: seq<Id>): seq<Id> {
    if hits == [] then []
    else
      (if hits[0] in d.threads && d.threads[hits[0]] in deny then [] else [hits[0]]) + Without(d, hits[1..], deny)
  }

  /** A denied channel holds nothing the caller may read. */
  lemma DeniedIsHidden(d: Data, auth: Auth, workspace: Id, thread: Id)
    requires d.Valid() && thread in d.threads && d.threads[thread] in DenySet(d, auth, workspace)
    ensures CanAccess(d, auth, thread) == Ok(false)
  {
  }

  /** Leaving denied channels out of the query first, whatever workspace the set
      was made for, changes nothing about what the authoritative filter returns. */
  lemma {:induction false} PreFilterKeepsMeaning(d: Data, auth: Auth, workspace: Id, hits: seq<Id>)
    requires d.Valid()
    ensures Visible(d, auth, Without(d, hits, DenySet(d, auth, workspace))) == Visible(d, auth, hits)
  {
    if hits != [] {
      var deny := DenySet(d, auth, workspace);
      PreFilterKeepsMeaning(d, auth, workspace, hits[1..]);
      var rest := Without(d, hits[1..], deny);
      if hits[0] in d.threads && d.threads[hits[0]] in deny {
        DeniedIsHidden(d, auth, workspace, hits[0]);
        assert Without(d, hits, deny) == [] + rest == rest;
        if Visible(d, auth, hits[1..]).Ok? {
          Appended(Visible(d, auth, hits[1..]).value, [], []);
        }
      } else {
        assert Without(d, hits, deny)[1..] == rest;
      }
    }
  }

  // ----------------------------------------------------------------- the memo

  /** Whether an event may be shown, with nothing cached. */
  function Shown(d: Data, auth: Auth, thread: Option<Id>, channel: Option<Id>): bool {
    if auth.bypass then true
    else if thread.Some? then MayRead(d, auth, thread.value)
    else if channel.Some? then ChannelShown(d, auth, channel.value)
    else true
  }

  /** A channel's own events: never the shared direct-message channel's. */
  predicate ChannelShown(d: Data, auth: Auth, channel: Id) {
    && channel in d.channels
    && d.channels[channel].workspace == auth.workspace
    && !d.channels[channel].isDm
    && (d.channels[channel].private ==> (channel, auth.member) in d.members)
  }

  /** The two rules agree: a channel's own events are for those who may read its
      threads, and the direct-message channel's for nobody. */
  lemma ChannelLikeItsThreads(d: Data, auth: Auth, thread: Id)
    requires Exists(d, thread)
    ensures var c := d.threads[thread];
      if d.channels[c].isDm then !ChannelShown(d, auth, c) else ChannelShown(d, auth, c) <==> MayRead(d, auth, thread)
  {
  }

  /** Of the caller's own workspace the deny set leaves out exactly the channels,
      other than the direct-message one, that are not shown. */
  lemma DeniedExactly(d: Data, auth: Auth, channel: Id)
    requires d.Valid() && !auth.bypass && auth.workspace in d.listed && channel in d.listed[auth.workspace]
    ensures channel in d.channels
    ensures channel in DenySet(d, auth, auth.workspace) <==> !d.channels[channel].isDm && !ChannelShown(d, auth, channel)
  {
  }

  /** Who bypasses the rule sees everything, and what happened in neither a thread
      nor a channel is for everyone. */
  lemma ShownToAll(d: Data, auth: Auth, thread: Option<Id>, channel: Option<Id>)
    requires auth.bypass || (thread.None? && channel.None?)
    ensures Shown(d, auth, thread, channel)
    ensures auth.bypass ==> forall t :: CanAccess(d, auth, t) == Ok(true)
    ensures auth.bypass ==> forall w :: d.Valid() ==> DenySet(d, auth, w) == []
  {
  }

  datatype Query = Query(thread: Option<Id>, channel: Option<Id>)

  /** Every answer is the rule's, or a failure. */
  ghost predicate AllTrue(d: Data, auth: Auth, queries: seq<Query>, answers: seq<Result<bool, StoreError>>) {
    && |answers| == |queries|
    && forall i :: 0 <= i < |queries| ==>
         answers[i] == Ok(Shown(d, auth, queries[i].thread, queries[i].channel)) || answers[i] == Err(Database)
  }

  ghost predicate Missing(answers: seq<Result<bool, StoreError>>) {
    exists i :: 0 <= i < |answers| && answers[i].Err?
  }

  lemma AnswerOne(d: Data, auth: Auth, queries: seq<Query>, k: nat, answers: seq<Result<bool, StoreError>>,
                  r: Result<bool, StoreError>)
    requires k < |queries| && AllTrue(d, auth, queries[..k], answers)
    requires r == Ok(Shown(d, auth, queries[k].thread, queries[k].channel)) || r == Err(Database)
    ensures AllTrue(d, auth, queries[..k + 1], answers + [r]) && (Missing(answers + [r]) <==> Missing(answers) || r.Err?)
  {
    var more := answers + [r];
    if Missing(answers) {
      var i :| 0 <= i < |answers| && answers[i].Err?;
      assert more[i].Err?;
    }
    assert more[k] == r;
  }

  class EventVisibility {
    const store: FaultyStore
    const auth: Auth
    var threads: map<Id, bool>
    var channels: map<Id, bool>

    /** What is remembered is what the rule says. */
    ghost predicate Valid()
      reads this
    {
      && (forall t :: t in threads ==> threads[t] == MayRead(store.data, auth, t))
      && (forall c :: c in channels ==> channels[c] == ChannelShown(store.data, auth, c))
    }

    constructor (store: FaultyStore, auth: Auth)
      ensures Valid() && this.store == store && this.auth == auth
    {
      this.store, this.auth, threads, channels := store, auth, map[], map[];
    }

    /** A thread or channel that is gone shows nothing; a failed read stays one. */
    static function Settle(r: Result<bool, AuthError>): Result<bool, StoreError> {
      match r
      case Ok(allowed) => Ok(allowed)
      case Err(Store(NotFound)) => Ok(false)
      case Err(Store(e)) => Err(e)
      case Err(Forbidden) => Ok(false)
    }

    /** Every answer is the uncached rule's, exactly unless a read of its own
        failed: that is reported, and not remembered. What is remembered is
        answered without a read. */
    method AllowsIn(thread: Option<Id>, channel: Option<Id>) returns (r: Result<bool, StoreError>)
      requires Valid()
      modifies store, this
      ensures Valid() && old(store.made) <= store.made
      ensures r == if Failed(store.faults, old(store.made), store.made) then Err(Database)
                   else Ok(Shown(store.data, auth, thread, channel))
      ensures r.Err? ==> unchanged(this)
      ensures thread.Some? && thread.value in old(threads) ==> store.made == old(store.made)
      ensures thread.None? && channel.Some? && channel.value in old(channels) ==> store.made == old(store.made)
    {
      if auth.bypass {
        return Ok(true);
      }
      if thread.Some? {
        if thread.value in threads {
          return Ok(threads[thread.value]);
        }
        var access := CanAccessThread(store, auth, thread.value);
        var settled := Settle(access);
        if settled.Err? {
          return settled;
        }
        threads := threads[thread.value := settled.value];
        return settled;
      }
      if channel.Some? {
        if channel.value in channels {
          return Ok(channels[channel.value]);
        }
        var shown := ReadChannel(channel.value);
        if shown.Err? {
          return shown;
        }
        channels := channels[channel.value := shown.value];
        return shown;
      }
      r := Ok(true);
    }

    /** The rule for a channel's own events, read from the store. */
    method ReadChannel(channel: Id) returns (r: Result<bool, StoreError>)
      modifies store
      ensures old(store.made) <= store.made
      ensures r == if Failed(store.faults, old(store.made), store.made) then Err(Database)
                   else Ok(ChannelShown(store.data, auth, channel))
    {
      ghost var before := store.made;
      var row := store.GetChannel(channel);
      ghost var mid := store.made;
      match row {
        case Ok(found) =>
          if found.workspace != auth.workspace || found.isDm {
            return Ok(false);
          }
          if !found.private {
            return Ok(true);
          }
          var member := store.IsMember(channel, auth.member);
          FailedJoins(store.faults, before, mid, store.made);
          return if member.Err? then Err(Database) else Ok(member.value);
        case Err(Store(NotFound)) => return Ok(false);
        case Err(_) => return Err(Database);
      }
    }

    /** Any sequence of queries, whatever reads fail in between: every answer given
        is the rule's, and one is missing exactly if a read failed. */
    method AnswerAll(queries: seq<Query>) returns (answers: seq<Result<bool, StoreError>>)
      requires Valid()
      modifies store, this
      ensures Valid() && AllTrue(store.data, auth, queries, answers)
      ensures old(store.made) <= store.made && (Failed(store.faults, old(store.made), store.made) <==> Missing(answers))
    {
      answers := [];
      ghost var before := store.made;
      for k := 0 to |queries|
        invariant Valid() && AllTrue(store.data, auth, queries[..k], answers)
        invariant before <= store.made && (Failed(store.faults, before, store.made) <==> Missing(answers))
      {
        ghost var mid := store.made;
        var r := AllowsIn(queries[k].thread, queries[k].channel);
        FailedJoins(store.faults, before, mid, store.made);
        AnswerOne(store.data, auth, queries, k, answers, r);
        answers := answers + [r];
      }
      assert queries[..|queries|] == queries;
    }
  }
}

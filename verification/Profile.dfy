/** storage/profile.go and storage/conversation.go: users, their e-mail index, and the index
    from conversation names to conversation ids that each user owns.

    The typed maps stand for objects of the database: by Redis.StoreDoesNotInterfere a store
    to one of them cannot change another.  Whether each database call succeeds is an input.
 */
module Profile {
  import opened GoStrings

  datatype Profile = Profile(id: string, name: string, emailHash: string, secret: string)

  datatype Conversation = Conversation(id: string, owner: string, name: string)

  datatype Store = Store(
    profiles: map<string, Profile>,
    emails: map<string, string>,
    conversations: map<string, Conversation>,
    owned: map<string, map<string, string>>)

  /** The name-to-id map of a profile; a map that was never stored is empty. */
  function Owned(s: Store, profileId: string): map<string, string> {
    if profileId in s.owned then s.owned[profileId] else map[]
  }

  function WithOwned(s: Store, profileId: string, names: map<string, string>): Store {
    s.(owned := s.owned[profileId := names])
  }

  // ----- creating a conversation -----

  datatype ConversationCalls = ConversationCalls(save: bool, add: bool, cleanup: bool)

  function Created(s: Store, c: Conversation, calls: ConversationCalls): Store {
    if !calls.save then s
    else if calls.add then
      WithOwned(s.(conversations := s.conversations[c.id := c]), c.owner, Owned(s, c.owner)[c.name := c.id])
    else if calls.cleanup then s.(conversations := s.conversations - {c.id})
    else s.(conversations := s.conversations[c.id := c])
  }

  predicate CreateSucceeds(calls: ConversationCalls) {
    calls.save && calls.add
  }

  // ----- deleting a conversation -----

  datatype DeleteCalls = DeleteCalls(lookup: bool, get: bool, remove: bool, relink: bool, delete: bool)

  function Unlinked(s: Store, c: Conversation): Store {
    WithOwned(s, c.owner, Owned(s, c.owner) - {c.name})
  }

  function Deleted(s: Store, profileId: string, name: string, calls: DeleteCalls): Store {
    var names := Owned(s, profileId);
    if !calls.lookup || name !in names || names[name] == "" then s
    else
      var id := names[name];
      if !calls.get || id !in s.conversations || !calls.remove then s
      else
        var c := s.conversations[id];
        var t := Unlinked(s, c);
        if c.owner != profileId then
          if calls.relink then WithOwned(t, c.owner, Owned(t, c.owner)[c.name := c.id]) else t
        else if calls.delete then t.(conversations := t.conversations - {id})
        else t
  }

  /** Whether the deletion reports success: an unknown name does, a missing conversation does
      not. */
  predicate DeleteSucceeds(s: Store, profileId: string, name: string, calls: DeleteCalls) {
    var names := Owned(s, profileId);
    && calls.lookup
    && (name in names && names[name] != "" ==>
          && calls.get && names[name] in s.conversations && calls.remove
          && if s.conversations[names[name]].owner != profileId then calls.relink else calls.delete)
  }

  // ----- creating a user -----

  datatype UserCalls = UserCalls(
    saveProfile: bool, setEmail: bool, conversation: ConversationCalls, cleanEmail: bool, cleanProfile: bool)

  predicate UserSucceeds(calls: UserCalls) {
    calls.saveProfile && calls.setEmail && CreateSucceeds(calls.conversation)
  }

  function CleanedUp(s: Store, p: Profile, calls: UserCalls): Store {
    var t := if calls.cleanEmail then s.(emails := s.emails - {p.emailHash}) else s;
    if calls.cleanProfile then t.(profiles := t.profiles - {p.id}) else t
  }

  function UserCreated(s: Store, p: Profile, c: Conversation, calls: UserCalls): Store {
    if !calls.saveProfile then s
    else
      var saved := s.(profiles := s.profiles[p.id := p]);
      if !calls.setEmail then CleanedUp(saved, p, calls)
      else
        var mapped := saved.(emails := saved.emails[p.emailHash := p.id]);
        var created := Created(mapped, c, calls.conversation);
        if CreateSucceeds(calls.conversation) then created else CleanedUp(created, p, calls)
  }

  // ----- deleting a user -----

  /** The outcomes of the calls about one conversation, by its id, and of the others. */
  datatype DeleteUserCalls = DeleteUserCalls(
    getProfile: bool, removeEmail: bool, getMap: bool,
    get: string -> bool, remove: string -> bool, delete: string -> bool, deleteProfile: bool)

  /** One turn of the loop over the owned conversations. */
  function OneDeleted(s: Store, id: string, calls: DeleteUserCalls): Store {
    if !calls.get(id) || id !in s.conversations then s
    else
      var c := s.conversations[id];
      var t := if calls.remove(id) then Unlinked(s, c) else s;
      if calls.delete(id) then t.(conversations := t.conversations - {id}) else t
  }

  /** What becomes of the conversations of a user, in any order: a name that leads to no stored
      conversation stays. */
  function ConversationsDeleted(s: Store, profileId: string, calls: DeleteUserCalls): Store {
    var names := Owned(s, profileId);
    s.(owned := s.owned[profileId :=
                          map n | n in names
                              && !(names[n] in s.conversations && calls.get(names[n]) && calls.remove(names[n]))
                              :: names[n]],
       conversations := map id | id in s.conversations
                              && !(id in names.Values && calls.get(id) && calls.delete(id)) :: s.conversations[id])
  }

  /** Two stores that hold the same, whether or not an empty index was stored. */
  ghost predicate Same(s: Store, t: Store) {
    && s.profiles == t.profiles && s.emails == t.emails && s.conversations == t.conversations
    && forall p :: p in s.owned || p in t.owned ==> Owned(s, p) == Owned(t, p)
  }

  function UserDeleted(s: Store, profileId: string, calls: DeleteUserCalls): Store {
    if !calls.getProfile || profileId !in s.profiles then s
    else
      var t := if calls.removeEmail then s.(emails := s.emails - {s.profiles[profileId].emailHash}) else s;
      var u := if calls.getMap then ConversationsDeleted(t, profileId, calls) else t;
      if calls.deleteProfile then u.(profiles := u.profiles - {profileId}) else u
  }

  /** The conversations named in `done` are stored, and every call about them succeeds. */
  predicate AllDeleted(s: Store, profileId: string, calls: DeleteUserCalls, done: set<string>) {
    var names := Owned(s, profileId);
    forall n :: n in names && n in done ==>
      names[n] in s.conversations && calls.get(names[n]) && calls.remove(names[n]) && calls.delete(names[n])
  }

  /** A user who does not exist is deleted without an error. */
  predicate DeletionFails(s: Store, profileId: string, calls: DeleteUserCalls) {
    calls.getProfile && profileId in s.profiles
    && !(calls.removeEmail && calls.getMap && calls.deleteProfile
         && AllDeleted(s, profileId, calls, Owned(s, profileId).Keys))
  }

  class Database {
    var profiles: map<string, Profile>
    var emails: map<string, string>
    var conversations: map<string, Conversation>
    var owned: map<string, map<string, string>>

    constructor ()
      ensures State() == Store(map[], map[], map[], map[])
    {
      profiles, emails, conversations, owned := map[], map[], map[], map[];
    }

    function State(): Store
      reads this
    {
      Store(profiles, emails, conversations, owned)
    }

    method AddOwnedConversation(c: Conversation, up: bool) returns (ok: bool)
      modifies `owned
      ensures ok == up
      ensures State() == if up then WithOwned(old(State()), c.owner, Owned(old(State()), c.owner)[c.name := c.id])
                         else old(State())
    {
      if up {
        owned := owned[c.owner := Owned(State(), c.owner)[c.name := c.id]];
      }
      return up;
    }

    method RemoveOwnedConversation(c: Conversation, up: bool) returns (ok: bool)
      modifies `owned
      ensures ok == up
      ensures State() == if up then Unlinked(old(State()), c) else old(State())
    {
      if up {
        owned := owned[c.owner := Owned(State(), c.owner) - {c.name}];
      }
      return up;
    }

    method GetConversation(id: string, up: bool) returns (c: Option<Conversation>)
      ensures c == if up && id in conversations then Some(conversations[id]) else None
    {
      if up && id in conversations {
        return Some(conversations[id]);
      }
      return None;
    }

    method CreateNewOwnedConversation(id: string, profileId: string, name: string, calls: ConversationCalls)
      returns (c: Option<Conversation>)
      modifies `conversations, `owned
      ensures c == if CreateSucceeds(calls) then Some(Conversation(id, profileId, name)) else None
      ensures State() == Created(old(State()), Conversation(id, profileId, name), calls)
    {
      var conversation := Conversation(id, profileId, name);
      if !calls.save {
        return None;
      }
      conversations := conversations[id := conversation];
      var ok := AddOwnedConversation(conversation, calls.add);
      if !ok {
        if calls.cleanup {
          conversations := conversations - {id};
          assert conversations == old(conversations) - {id};
        }
        return None;
      }
      return Some(conversation);
    }

    method DeleteOwnedConversation(profileId: string, name: string, calls: DeleteCalls) returns (ok: bool)
      modifies `conversations, `owned
      ensures State() == Deleted(old(State()), profileId, name, calls)
      ensures ok == DeleteSucceeds(old(State()), profileId, name, calls)
    {
      if !calls.lookup {
        return false;
      }
      var names := Owned(State(), profileId);
      var convoId := if name in names then names[name] else "";
      if convoId == "" {
        return true;
      }
      var got := GetConversation(convoId, calls.get);
      if got.None? {
        return false;
      }
      var c := got.value;
      ok := RemoveOwnedConversation(c, calls.remove);
      if !ok {
        return;
      }
      if c.owner != profileId {
        ok := AddOwnedConversation(c, calls.relink);
        return;
      }
      if calls.delete {
        conversations := conversations - {convoId};
      }
      return calls.delete;
    }

    method CreateNewUser(profileId: string, name: string, hashedEmail: string, secret: string, convoId: string,
                         calls: UserCalls)
      returns (r: Option<Profile>)
      modifies this
      ensures var p := Profile(profileId, name, hashedEmail, secret);
              && r == (if UserSucceeds(calls) then Some(p) else None)
              && State() == UserCreated(old(State()), p, Conversation(convoId, profileId, "Conversation 1"), calls)
    {
      var p := Profile(profileId, name, hashedEmail, secret);
      if !calls.saveProfile {
        return None;
      }
      profiles := profiles[profileId := p];
      var cleanup := false;
      if !calls.setEmail {
        cleanup := true;
      } else {
        emails := emails[hashedEmail := profileId];
        var c := CreateNewOwnedConversation(convoId, profileId, "Conversation 1", calls.conversation);
        if c.None? {
          cleanup := true;
        }
      }
      if cleanup {
        if calls.cleanEmail {
          emails := emails - {hashedEmail};
        }
        if calls.cleanProfile {
          profiles := profiles - {profileId};
        }
        return None;
      }
      return Some(p);
    }

    /** The body of the loop over a user's conversations; `ok` says that no call failed. */
    method DeleteOne(cId: string, calls: DeleteUserCalls) returns (ok: bool)
      modifies `conversations, `owned
      ensures State() == OneDeleted(old(State()), cId, calls)
      ensures ok <==> cId in old(conversations) && calls.get(cId) && calls.remove(cId) && calls.delete(cId)
    {
      var got := GetConversation(cId, calls.get(cId));
      if got.None? {
        return false;
      }
      ok := RemoveOwnedConversation(got.value, calls.remove(cId));
      if calls.delete(cId) {
        conversations := conversations - {cId};
      } else {
        ok := false;
      }
    }

    /** Deletes the conversations named in a profile's map, in any order. */
    method DeleteConversationsOf(profileId: string, calls: DeleteUserCalls) returns (ok: bool)
      modifies `conversations, `owned
      ensures profiles == old(profiles) && emails == old(emails)
      ensures NamesLead(old(State())) ==>
                && Same(State(), ConversationsDeleted(old(State()), profileId, calls))
                && (ok <==> AllDeleted(old(State()), profileId, calls, Owned(old(State()), profileId).Keys))
    {
      hide HalfDeleted, NamesLead, Same, ConversationsDeleted, OneDeleted, Owned, AllDeleted;
      ok := true;
      ghost var before := State();
      var cIds := Owned(State(), profileId);
      var todo := cIds.Keys;
      LoopStarts(before, profileId, calls);
      assert cIds.Keys - todo == {};
      while todo != {}
        invariant todo <= cIds.Keys
        invariant HalfDeleted(before, State(), profileId, calls, cIds.Keys - todo, ok)
        decreases |todo|
      {
        var name :| name in todo;
        TurnKeeps(before, State(), profileId, calls, cIds.Keys - todo, name, ok);
        assert cIds.Keys - (todo - {name}) == (cIds.Keys - todo) + {name};
        todo := todo - {name};
        var deleted := DeleteOne(cIds[name], calls);
        ok := ok && deleted;
      }
      assert cIds.Keys - todo == cIds.Keys;
      LoopDone(before, State(), profileId, calls, ok);
    }

    /** `failed` says whether any call failed; failures do not stop the deletion. */
    method DeleteExistingUser(profileId: string, calls: DeleteUserCalls) returns (failed: bool)
      modifies this
      ensures NamesLead(old(State())) ==>
                && Same(State(), UserDeleted(old(State()), profileId, calls))
                && (failed <==> DeletionFails(old(State()), profileId, calls))
    {
      hide ConversationsDeleted, AllDeleted;
      failed := false;
      if !calls.getProfile || profileId !in profiles {
        return;
      }
      failed := !calls.removeEmail || !calls.getMap || !calls.deleteProfile;
      var p := profiles[profileId];
      if calls.removeEmail {
        emails := emails - {p.emailHash};
      }
      if calls.getMap {
        SameIndexLeads(old(State()), State());
        SameCallsMade(old(State()), State(), profileId, calls);
        var ok := DeleteConversationsOf(profileId, calls);
        failed := failed || !ok;
      }
      ConversationsDeletedRest(old(State()), emails, profileId, calls);
      if calls.deleteProfile {
        profiles := profiles - {profileId};
      }
    }
  }

  lemma AllDeletedStep(s: Store, profileId: string, calls: DeleteUserCalls, done: set<string>, name: string)
    requires name in Owned(s, profileId)
    ensures var id := Owned(s, profileId)[name];
            AllDeleted(s, profileId, calls, done + {name}) <==>
            AllDeleted(s, profileId, calls, done)
            && id in s.conversations && calls.get(id) && calls.remove(id) && calls.delete(id)
  {
  }

  lemma SameCallsMade(s: Store, t: Store, profileId: string, calls: DeleteUserCalls)
    requires t.owned == s.owned && t.conversations == s.conversations
    ensures AllDeleted(t, profileId, calls, Owned(t, profileId).Keys)
            <==> AllDeleted(s, profileId, calls, Owned(s, profileId).Keys)
  {
  }

  lemma SameIndexLeads(s: Store, t: Store)
    requires t.conversations == s.conversations && t.owned == s.owned
    ensures NamesLead(t) <==> NamesLead(s)
  {
  }

  lemma SameIndexDangles(s: Store, t: Store)
    requires t.conversations == s.conversations && t.owned == s.owned
    ensures NothingDangles(t) <==> NothingDangles(s)
  {
  }

  lemma ConversationsDeletedRest(s: Store, emails: map<string, string>, profileId: string, calls: DeleteUserCalls)
    ensures var t := ConversationsDeleted(s, profileId, calls);
            && t.profiles == s.profiles && t.emails == s.emails
            && ConversationsDeleted(s.(emails := emails), profileId, calls) == t.(emails := emails)
  {
    assert Owned(s.(emails := emails), profileId) == Owned(s, profileId);
  }

  // ----- the index is right -----

  /** Every name leads to a conversation of that name and owner, or to none that is stored. */
  predicate NamesLead(s: Store) {
    forall p, n :: p in s.owned && n in s.owned[p] ==>
      var id := s.owned[p][n];
      id != "" && (id in s.conversations ==> s.conversations[id] == Conversation(id, p, n))
  }

  /** Every name leads to a stored conversation of that name and owner. */
  predicate NothingDangles(s: Store) {
    forall p, n :: p in s.owned && n in s.owned[p] ==>
      var id := s.owned[p][n];
      id != "" && id in s.conversations && s.conversations[id] == Conversation(id, p, n)
  }

  /** Every stored conversation is found under its name in its owner's map. */
  predicate NothingHidden(s: Store) {
    forall id :: id in s.conversations ==>
      var c := s.conversations[id];
      id != "" && c.id == id && c.name in Owned(s, c.owner) && Owned(s, c.owner)[c.name] == id
  }

  /** Each profile's map is a bijection onto the stored conversations it owns. */
  predicate Indexed(s: Store) {
    NothingDangles(s) && NothingHidden(s)
  }

  /** The e-mail map is a bijection between the e-mail hashes in use and the profiles. */
  predicate EmailsIndexed(s: Store) {
    && (forall p :: p in s.profiles ==>
          s.profiles[p].id == p && s.profiles[p].emailHash in s.emails && s.emails[s.profiles[p].emailHash] == p)
    && (forall e :: e in s.emails ==> s.emails[e] in s.profiles && s.profiles[s.emails[e]].emailHash == e)
  }

  // ----- the loop over a user's conversations -----

  /** The names in `done` are removed, unless a call failed. */
  ghost predicate NamesDone(s: Store, t: Store, profileId: string, calls: DeleteUserCalls, done: set<string>) {
    var names, left := Owned(s, profileId), Owned(t, profileId);
    forall n ::
      && (n in left <==>
            n in names && !(n in done && names[n] in s.conversations && calls.get(names[n]) && calls.remove(names[n])))
      && (n in left ==> left[n] == names[n])
  }

  /** The conversations that they name are deleted, unless a call failed. */
  ghost predicate ConversationsDone(s: Store, t: Store, profileId: string, calls: DeleteUserCalls, done: set<string>) {
    forall id ::
      && (id in t.conversations <==>
            id in s.conversations && !(NamedIn(s, id, profileId, done) && calls.get(id) && calls.delete(id)))
      && (id in t.conversations ==> t.conversations[id] == s.conversations[id])
  }

  /** The conversation is the one that the profile's map names by some name in `done`. */
  predicate NamedIn(s: Store, id: string, profileId: string, done: set<string>)
    requires id in s.conversations
  {
    var c := s.conversations[id];
    c.owner == profileId && c.name in done && c.name in Owned(s, profileId) && Owned(s, profileId)[c.name] == id
  }

  /** Nothing of other profiles changed. */
  ghost predicate OthersKept(s: Store, t: Store, profileId: string) {
    && t.profiles == s.profiles && t.emails == s.emails
    && forall p :: p != profileId && (p in s.owned || p in t.owned) ==> Owned(t, p) == Owned(s, p)
  }

  ghost predicate PartlyDeleted(s: Store, t: Store, profileId: string, calls: DeleteUserCalls, done: set<string>) {
    && NamesDone(s, t, profileId, calls, done)
    && ConversationsDone(s, t, profileId, calls, done)
    && OthersKept(s, t, profileId)
  }

  /** The loop after the turns for `done`; `ok` says that no call failed. */
  ghost predicate HalfDeleted(s: Store, t: Store, profileId: string, calls: DeleteUserCalls, done: set<string>,
                              ok: bool) {
    NamesLead(s) ==>
      PartlyDeleted(s, t, profileId, calls, done) && (ok <==> AllDeleted(s, profileId, calls, done))
  }

  lemma LoopStarts(s: Store, profileId: string, calls: DeleteUserCalls)
    ensures HalfDeleted(s, s, profileId, calls, {}, true)
  {
  }

  lemma TurnKeeps(s: Store, t: Store, profileId: string, calls: DeleteUserCalls, done: set<string>, name: string,
                  ok: bool)
    requires HalfDeleted(s, t, profileId, calls, done, ok)
    requires name in Owned(s, profileId) && name !in done
    ensures var id := Owned(s, profileId)[name];
            HalfDeleted(s, OneDeleted(t, id, calls), profileId, calls, done + {name},
                        ok && id in t.conversations && calls.get(id) && calls.remove(id) && calls.delete(id))
  {
    hide PartlyDeleted, NamesLead, OneDeleted, AllDeleted;
    if NamesLead(s) {
      LoopStep(s, t, profileId, calls, done, name);
      AllDeletedStep(s, profileId, calls, done, name);
    }
  }

  lemma LoopDone(s: Store, t: Store, profileId: string, calls: DeleteUserCalls, ok: bool)
    requires HalfDeleted(s, t, profileId, calls, Owned(s, profileId).Keys, ok)
    ensures NamesLead(s) ==>
              && Same(t, ConversationsDeleted(s, profileId, calls))
              && (ok <==> AllDeleted(s, profileId, calls, Owned(s, profileId).Keys))
  {
    hide PartlyDeleted, NamesLead, Same, ConversationsDeleted, AllDeleted;
    if NamesLead(s) {
      LoopEnds(s, t, profileId, calls, Owned(s, profileId).Keys);
    }
  }

  lemma NameLeads(s: Store, profileId: string, name: string)
    requires (NamesLead(s) || NothingDangles(s)) && name in Owned(s, profileId)
    ensures var id := Owned(s, profileId)[name];
            id != "" && (id in s.conversations ==> s.conversations[id] == Conversation(id, profileId, name))
    ensures NothingDangles(s) ==> Owned(s, profileId)[name] in s.conversations
  {
  }

  lemma NothingDanglesLeads(s: Store)
    requires NothingDangles(s)
    ensures NamesLead(s)
  {
  }

  /** The turn for `name` finds its conversation if it was stored, as no other name leads to
      it, and otherwise does nothing. */
  lemma LoopStep(s: Store, t: Store, profileId: string, calls: DeleteUserCalls, done: set<string>, name: string)
    requires NamesLead(s) && PartlyDeleted(s, t, profileId, calls, done)
    requires name in Owned(s, profileId) && name !in done
    ensures Owned(s, profileId)[name] in t.conversations <==> Owned(s, profileId)[name] in s.conversations
    ensures var u := OneDeleted(t, Owned(s, profileId)[name], calls);
            PartlyDeleted(s, u, profileId, calls, done + {name})
  {
    hide NamesLead, NothingDangles, NamesDone, OthersKept;
    var id := Owned(s, profileId)[name];
    NameLeads(s, profileId, name);
    if id in s.conversations {
      assert id in t.conversations && t.conversations[id] == Conversation(id, profileId, name);
      StepNames(s, t, profileId, calls, done, name);
      StepConversations(s, t, profileId, calls, done, name);
      StepOthers(s, t, profileId, calls, name);
    } else {
      StepNothing(s, t, profileId, calls, done, name);
    }
  }

  lemma StepNothing(s: Store, t: Store, profileId: string, calls: DeleteUserCalls, done: set<string>, name: string)
    requires PartlyDeleted(s, t, profileId, calls, done) && name in Owned(s, profileId)
    requires Owned(s, profileId)[name] !in s.conversations
    ensures PartlyDeleted(s, t, profileId, calls, done + {name})
  {
    hide OthersKept;
    forall id | id in s.conversations
      ensures NamedIn(s, id, profileId, done + {name}) <==> NamedIn(s, id, profileId, done)
    {
    }
  }

  lemma StepNames(s: Store, t: Store, profileId: string, calls: DeleteUserCalls, done: set<string>, name: string)
    requires NamesDone(s, t, profileId, calls, done) && name in Owned(s, profileId)
    requires var id := Owned(s, profileId)[name];
             id in s.conversations && id in t.conversations && t.conversations[id] == Conversation(id, profileId, name)
    ensures var u := OneDeleted(t, Owned(s, profileId)[name], calls);
            NamesDone(s, u, profileId, calls, done + {name})
  {
    var id := Owned(s, profileId)[name];
    var u, left := OneDeleted(t, id, calls), Owned(t, profileId);
    assert Owned(u, profileId) == if calls.get(id) && calls.remove(id) then left - {name} else left;
  }

  lemma StepConversations(s: Store, t: Store, profileId: string, calls: DeleteUserCalls, done: set<string>,
                          name: string)
    requires ConversationsDone(s, t, profileId, calls, done) && name in Owned(s, profileId)
    requires var id := Owned(s, profileId)[name];
             && id in t.conversations && t.conversations[id] == Conversation(id, profileId, name)
             && id in s.conversations && s.conversations[id] == Conversation(id, profileId, name)
    ensures var u := OneDeleted(t, Owned(s, profileId)[name], calls);
            ConversationsDone(s, u, profileId, calls, done + {name})
  {
    var id := Owned(s, profileId)[name];
    var u := OneDeleted(t, id, calls);
    assert u.conversations == if calls.get(id) && calls.delete(id) then t.conversations - {id} else t.conversations;
    forall other | other in s.conversations
      ensures NamedIn(s, other, profileId, done + {name}) <==> NamedIn(s, other, profileId, done) || other == id
    {
    }
  }

  lemma StepOthers(s: Store, t: Store, profileId: string, calls: DeleteUserCalls, name: string)
    requires OthersKept(s, t, profileId) && name in Owned(s, profileId)
    requires var id := Owned(s, profileId)[name];
             id in t.conversations && t.conversations[id] == Conversation(id, profileId, name)
    ensures OthersKept(s, OneDeleted(t, Owned(s, profileId)[name], calls), profileId)
  {
  }

  lemma LoopEnds(s: Store, t: Store, profileId: string, calls: DeleteUserCalls, done: set<string>)
    requires NamesLead(s) && PartlyDeleted(s, t, profileId, calls, done) && done == Owned(s, profileId).Keys
    ensures Same(t, ConversationsDeleted(s, profileId, calls))
  {
    hide NamesLead, NothingDangles;
    var u, names := ConversationsDeleted(s, profileId, calls), Owned(s, profileId);
    assert Owned(t, profileId) == Owned(u, profileId);
    forall id | id in s.conversations ensures NamedIn(s, id, profileId, done) <==> id in names.Values {
      if id in names.Values {
        var n :| n in names && names[n] == id;
        NameLeads(s, profileId, n);
      }
    }
    assert t.conversations == u.conversations;
  }

  // ----- what each operation keeps -----

  lemma CreateUnusedName(s: Store, c: Conversation, calls: ConversationCalls)
    requires Indexed(s) && c.id != "" && c.id !in s.conversations && CreateSucceeds(calls)
    requires c.name !in Owned(s, c.owner)
    ensures Indexed(Created(s, c, calls))
  {
    var t := Created(s, c, calls);
    forall id | id in t.conversations
      ensures var d := t.conversations[id];
              id != "" && d.id == id && d.name in Owned(t, d.owner) && Owned(t, d.owner)[d.name] == id
    {
      var d := t.conversations[id];
      assert id != c.id ==> id in s.conversations && s.conversations[id] == d;
    }
  }

  lemma CreateUsedName(s: Store, c: Conversation, calls: ConversationCalls)
    requires Indexed(s) && c.id !in s.conversations && CreateSucceeds(calls) && c.name in Owned(s, c.owner)
    ensures !NothingHidden(Created(s, c, calls))
  {
    var t, id := Created(s, c, calls), Owned(s, c.owner)[c.name];
    NameLeads(s, c.owner, c.name);
    assert t.conversations[id] == Conversation(id, c.owner, c.name);
    assert Owned(t, c.owner)[c.name] == c.id != id;
  }

  /** A new conversation under a fresh id keeps the index right exactly when its owner has no
      conversation of that name: a second one hides the first. */
  lemma CreateKeepsIndexExactly(s: Store, c: Conversation, calls: ConversationCalls)
    requires Indexed(s) && c.id != "" && c.id !in s.conversations && CreateSucceeds(calls)
    ensures Indexed(Created(s, c, calls)) <==> c.name !in Owned(s, c.owner)
  {
    hide NothingDangles, NothingHidden, Created;
    if c.name in Owned(s, c.owner) {
      CreateUsedName(s, c, calls);
    } else {
      CreateUnusedName(s, c, calls);
    }
  }

  /** A creation without failure adds the conversation under its name, and nothing else; a
      deletion by that name undoes it. */
  lemma CreateAddsJustOne(s: Store, c: Conversation, calls: ConversationCalls)
    requires Indexed(s) && c.id != "" && c.id !in s.conversations && CreateSucceeds(calls)
    requires c.name !in Owned(s, c.owner)
    ensures var t := Created(s, c, calls);
            && t.conversations == s.conversations[c.id := c]
            && Owned(t, c.owner) == Owned(s, c.owner)[c.name := c.id]
            && (forall p :: p != c.owner ==> Owned(t, p) == Owned(s, p))
            && Same(s, Deleted(t, c.owner, c.name, DeleteCalls(true, true, true, true, true)))
  {
    hide Indexed;
    var t := Created(s, c, calls);
    assert Owned(t, c.owner) == Owned(s, c.owner)[c.name := c.id];
    var u := Deleted(t, c.owner, c.name, DeleteCalls(true, true, true, true, true));
    assert u.conversations == t.conversations - {c.id} == s.conversations;
    assert Owned(u, c.owner) == Owned(t, c.owner) - {c.name} == Owned(s, c.owner);
  }

  /** A creation that fails leaves the store as it was, provided that its clean-up succeeds,
      and never leaves a dangling name. */
  lemma FailedCreate(s: Store, c: Conversation, calls: ConversationCalls)
    requires c.id !in s.conversations && !CreateSucceeds(calls)
    ensures Created(s, c, calls) == s <==> !calls.save || calls.cleanup
    ensures NothingDangles(s) ==> NothingDangles(Created(s, c, calls))
  {
    assert s.conversations - {c.id} == s.conversations;
  }

  lemma DeleteLeavesNoDangling(s: Store, profileId: string, name: string, calls: DeleteCalls)
    requires NothingDangles(s)
    ensures NothingDangles(Deleted(s, profileId, name, calls))
  {
    if name in Owned(s, profileId) {
      NameLeads(s, profileId, name);
    }
  }

  lemma DeleteHides(s: Store, profileId: string, name: string, calls: DeleteCalls)
    requires Indexed(s) && name in Owned(s, profileId) && calls.lookup && calls.get && calls.remove
    ensures NothingHidden(Deleted(s, profileId, name, calls)) <==> calls.delete
  {
    hide NothingDangles;
    var t, id := Deleted(s, profileId, name, calls), Owned(s, profileId)[name];
    NameLeads(s, profileId, name);
    assert id != "" by { assert NothingHidden(s); }
    assert Owned(t, profileId) == Owned(s, profileId) - {name};
    if calls.delete {
      forall other | other in t.conversations
        ensures var d := t.conversations[other];
                other != "" && d.id == other && d.name in Owned(t, d.owner) && Owned(t, d.owner)[d.name] == other
      {
        assert other in s.conversations && other != id;
      }
    } else {
      assert id in t.conversations && t.conversations[id] == Conversation(id, profileId, name);
    }
  }

  /** Deleting a conversation never leaves a dangling name, and hides the conversation exactly
      when only the last call fails. */
  lemma DeleteKeepsIndex(s: Store, profileId: string, name: string, calls: DeleteCalls)
    requires Indexed(s)
    ensures NothingDangles(Deleted(s, profileId, name, calls))
    ensures NothingHidden(Deleted(s, profileId, name, calls)) <==>
            calls.lookup && calls.get && calls.remove && name in Owned(s, profileId) ==> calls.delete
  {
    hide NothingDangles, NothingHidden;
    DeleteLeavesNoDangling(s, profileId, name, calls);
    if calls.lookup && calls.get && calls.remove && name in Owned(s, profileId) {
      DeleteHides(s, profileId, name, calls);
    } else {
      assert Deleted(s, profileId, name, calls) == s;
    }
  }

  /** A deletion without failure removes the named conversation and its name, and no other. */
  lemma DeleteRemovesJustOne(s: Store, profileId: string, name: string)
    requires Indexed(s)
    ensures var t := Deleted(s, profileId, name, DeleteCalls(true, true, true, true, true));
            && Indexed(t)
            && Owned(t, profileId) == Owned(s, profileId) - {name}
            && (forall p :: p != profileId ==> Owned(t, p) == Owned(s, p))
            && (forall id :: id in t.conversations <==>
                  id in s.conversations && s.conversations[id] != Conversation(id, profileId, name))
            && (forall id :: id in t.conversations ==> t.conversations[id] == s.conversations[id])
  {
    var calls := DeleteCalls(true, true, true, true, true);
    DeleteKeepsIndex(s, profileId, name, calls);
    var t := Deleted(s, profileId, name, calls);
    if name in Owned(s, profileId) {
      var id := Owned(s, profileId)[name];
      assert s.conversations[id] == Conversation(id, profileId, name);
    } else {
      assert Owned(s, profileId) - {name} == Owned(s, profileId);
      forall id | id in s.conversations ensures s.conversations[id] != Conversation(id, profileId, name) {
      }
    }
  }

  /** The name is unlinked by a deletion: it leads to a stored conversation of the profile
      with that name, or it leads nowhere. */
  predicate Unlinkable(s: Store, profileId: string, name: string) {
    var names := Owned(s, profileId);
    name in names ==>
      names[name] in s.conversations && names[name] != ""
      && s.conversations[names[name]].owner == profileId && s.conversations[names[name]].name == name
  }

  /** A deletion that reports success has removed the name exactly when the name was unknown
      or led to a conversation of that owner and name.  While names lead as they should it
      always has; otherwise an empty id, someone else's conversation, and the profile's own
      one stored under another name all leave the name where it is, and the last of them is
      deleted. */
  lemma DeleteUnlinksExactly(s: Store, profileId: string, name: string, calls: DeleteCalls)
    requires DeleteSucceeds(s, profileId, name, calls)
    ensures var t := Deleted(s, profileId, name, calls);
            && (name !in Owned(t, profileId) <==> Unlinkable(s, profileId, name))
            && (NamesLead(s) ==> name !in Owned(t, profileId))
  {
    var names := Owned(s, profileId);
    if NamesLead(s) && name in names {
      NameLeads(s, profileId, name);
    }
  }

  /** A name that leads to someone else's conversation: once its own name was taken out of its
      owner's map, the deletion reports success exactly if its owner finds it under that name
      again; and the conversation stays in any case. */
  lemma RelinkReportsExactly(s: Store, profileId: string, name: string, calls: DeleteCalls)
    requires calls.lookup && calls.get && calls.remove
    requires name in Owned(s, profileId) && Owned(s, profileId)[name] != ""
    requires Owned(s, profileId)[name] in s.conversations
    requires s.conversations[Owned(s, profileId)[name]].owner != profileId
    ensures var t, c := Deleted(s, profileId, name, calls), s.conversations[Owned(s, profileId)[name]];
            && t.conversations == s.conversations
            && (DeleteSucceeds(s, profileId, name, calls) <==> c.name in Owned(t, c.owner))
            && (c.name in Owned(t, c.owner) ==> Owned(t, c.owner)[c.name] == c.id)
            && (forall p :: p != c.owner ==> Owned(t, p) == Owned(s, p))
            && (forall n :: n != c.name ==> (n in Owned(t, c.owner) <==> n in Owned(s, c.owner)))
  {
  }

  /** In an indexed store a deletion reports success exactly if the look-up succeeds, and then
      neither the name nor a conversation of that owner and name is left. */
  lemma DeleteReportsExactly(s: Store, profileId: string, name: string, calls: DeleteCalls)
    requires Indexed(s)
    ensures var t := Deleted(s, profileId, name, calls);
            DeleteSucceeds(s, profileId, name, calls) <==>
            && calls.lookup
            && name !in Owned(t, profileId)
            && forall id :: id in t.conversations ==> t.conversations[id] != Conversation(id, profileId, name)
  {
    var t, names := Deleted(s, profileId, name, calls), Owned(s, profileId);
    if name in names {
      NameLeads(s, profileId, name);
      var id := names[name];
      assert id in t.conversations ==> t.conversations[id] == Conversation(id, profileId, name);
      forall other | other in t.conversations && other != id
        ensures t.conversations[other] != Conversation(other, profileId, name)
      {
        StoredIsNamed(s, other);
      }
    } else {
      forall other | other in t.conversations
        ensures t.conversations[other] != Conversation(other, profileId, name)
      {
        StoredIsNamed(s, other);
      }
    }
  }

  /** All or nothing: a creation of a user that fails leaves the store as it was exactly when
      the clean-ups of what had been stored by then succeed. */
  lemma CreateUserAllOrNothing(s: Store, p: Profile, c: Conversation, calls: UserCalls)
    requires p.id !in s.profiles && p.emailHash !in s.emails && c.id !in s.conversations
    requires !UserSucceeds(calls)
    ensures UserCreated(s, p, c, calls) == s <==>
            !calls.saveProfile
            || (calls.cleanProfile
                && (calls.setEmail ==>
                      calls.cleanEmail && (calls.conversation.save ==> calls.conversation.cleanup)))
  {
    hide Created;
    if calls.saveProfile && !calls.setEmail {
      MappingFails(s, p, c, calls);
    } else if calls.saveProfile {
      FirstConversationFails(s, p, c, calls);
    }
  }

  lemma MappingFails(s: Store, p: Profile, c: Conversation, calls: UserCalls)
    requires p.id !in s.profiles && p.emailHash !in s.emails && calls.saveProfile && !calls.setEmail
    ensures UserCreated(s, p, c, calls) == s <==> calls.cleanProfile
  {
    hide Created;
    assert s.profiles[p.id := p] - {p.id} == s.profiles;
    assert s.emails - {p.emailHash} == s.emails;
    assert !calls.cleanProfile ==> p.id in UserCreated(s, p, c, calls).profiles;
  }

  lemma FirstConversationFails(s: Store, p: Profile, c: Conversation, calls: UserCalls)
    requires p.id !in s.profiles && p.emailHash !in s.emails && c.id !in s.conversations
    requires calls.saveProfile && calls.setEmail && !CreateSucceeds(calls.conversation)
    ensures UserCreated(s, p, c, calls) == s <==>
            calls.cleanProfile && calls.cleanEmail && (calls.conversation.save ==> calls.conversation.cleanup)
  {
    hide Created;
    var mapped := s.(profiles := s.profiles[p.id := p], emails := s.emails[p.emailHash := p.id]);
    var t := UserCreated(s, p, c, calls);
    FailedCreate(mapped, c, calls.conversation);
    CreatedRest(mapped, c, calls.conversation);
    assert t.conversations == Created(mapped, c, calls.conversation).conversations;
    assert t.owned == Created(mapped, c, calls.conversation).owned;
    assert s.profiles[p.id := p] - {p.id} == s.profiles;
    assert s.emails[p.emailHash := p.id] - {p.emailHash} == s.emails;
    assert !calls.cleanProfile ==> p.id in t.profiles;
    assert !calls.cleanEmail ==> p.emailHash in t.emails;
    SameButUser(mapped, Created(mapped, c, calls.conversation));
  }

  lemma SameButUser(s: Store, t: Store)
    requires t.profiles == s.profiles && t.emails == s.emails
    ensures t == s <==> t.conversations == s.conversations && t.owned == s.owned
  {
  }

  /** Which calls leave the e-mail map a bijection.  With a hash that is in use: only those
      that store no mapping, take none away, and keep no profile; even a creation without
      failure takes the mapping of the user who had it.  With an unused hash: those that
      store or clean up both the profile and its mapping. */
  predicate EmailCallsKeep(inUse: bool, calls: UserCalls) {
    || !calls.saveProfile
    || (inUse && !calls.setEmail && !calls.cleanEmail && calls.cleanProfile)
    || (!inUse && UserSucceeds(calls))
    || (!inUse && !calls.setEmail && calls.cleanProfile)
    || (!inUse && calls.setEmail && !CreateSucceeds(calls.conversation) && calls.cleanEmail == calls.cleanProfile)
  }

  /** Creating a user with a fresh id keeps the e-mail map a bijection exactly under these
      calls. */
  lemma CreateUserKeepsEmailsExactly(s: Store, p: Profile, c: Conversation, calls: UserCalls)
    requires EmailsIndexed(s) && p.id !in s.profiles
    ensures EmailsIndexed(UserCreated(s, p, c, calls)) <==> EmailCallsKeep(p.emailHash in s.emails, calls)
  {
    hide Created;
    if calls.saveProfile {
      UserCreatedEmails(s, p, c, calls);
      if p.emailHash in s.emails {
        UsedEmail(s, p, UserCreated(s, p, c, calls), calls);
      } else {
        UnusedEmail(s, p, UserCreated(s, p, c, calls), calls);
      }
    }
  }

  lemma UserCreatedEmails(s: Store, p: Profile, c: Conversation, calls: UserCalls)
    requires calls.saveProfile
    ensures var t := UserCreated(s, p, c, calls);
            && t.emails == EmailsAfter(s, p, calls) && t.profiles == ProfilesAfter(s, p, calls)
  {
    hide Created;
    var saved := s.(profiles := s.profiles[p.id := p]);
    CreatedRest(saved.(emails := saved.emails[p.emailHash := p.id]), c, calls.conversation);
  }

  function EmailsAfter(s: Store, p: Profile, calls: UserCalls): map<string, string> {
    var emails := if calls.setEmail then s.emails[p.emailHash := p.id] else s.emails;
    if !UserSucceeds(calls) && calls.cleanEmail then emails - {p.emailHash} else emails
  }

  function ProfilesAfter(s: Store, p: Profile, calls: UserCalls): map<string, Profile> {
    var profiles := s.profiles[p.id := p];
    if !UserSucceeds(calls) && calls.cleanProfile then profiles - {p.id} else profiles
  }

  lemma UsedEmail(s: Store, p: Profile, t: Store, calls: UserCalls)
    requires EmailsIndexed(s) && p.id !in s.profiles && p.emailHash in s.emails && calls.saveProfile
    requires t.emails == EmailsAfter(s, p, calls) && t.profiles == ProfilesAfter(s, p, calls)
    ensures EmailsIndexed(t) <==> EmailCallsKeep(true, calls)
  {
    var other := s.emails[p.emailHash];
    assert other != p.id && other in t.profiles && t.profiles[other].emailHash == p.emailHash;
    if EmailCallsKeep(true, calls) {
      assert t.emails == s.emails && t.profiles == s.profiles;
    } else if calls.setEmail || calls.cleanEmail {
      assert p.emailHash in t.emails ==> t.emails[p.emailHash] == p.id;
    } else {
      assert t.profiles[p.id] == p && t.emails[p.emailHash] == other;
    }
  }

  /** A new profile and its mapping go together. */
  lemma HashedAndStored(s: Store, p: Profile, t: Store)
    requires EmailsIndexed(s) && p.id !in s.profiles && p.emailHash !in s.emails
    requires t.emails == s.emails || t.emails == s.emails[p.emailHash := p.id]
    requires t.profiles == s.profiles || t.profiles == s.profiles[p.id := p]
    ensures EmailsIndexed(t) <==> (p.emailHash in t.emails <==> p.id in t.profiles)
  {
  }

  lemma UnusedEmail(s: Store, p: Profile, t: Store, calls: UserCalls)
    requires EmailsIndexed(s) && p.id !in s.profiles && p.emailHash !in s.emails && calls.saveProfile
    requires t.emails == EmailsAfter(s, p, calls) && t.profiles == ProfilesAfter(s, p, calls)
    ensures EmailsIndexed(t) <==> EmailCallsKeep(false, calls)
  {
    assert forall q :: q in s.profiles ==> q != p.id && s.profiles[q].emailHash != p.emailHash;
    var hashed, stored := p.emailHash in t.emails, p.id in t.profiles;
    assert t.emails == if hashed then s.emails[p.emailHash := p.id] else s.emails;
    assert t.profiles == if stored then s.profiles[p.id := p] else s.profiles;
    HashedAndStored(s, p, t);
  }

  lemma CreateUserKeeps(s: Store, p: Profile, c: Conversation, calls: UserCalls)
    requires Indexed(s) && EmailsIndexed(s) && UserSucceeds(calls)
    requires p.id !in s.profiles && p.emailHash !in s.emails
    requires c.owner == p.id && c.id != "" && c.id !in s.conversations && c.name !in Owned(s, c.owner)
    ensures var t := UserCreated(s, p, c, calls);
            && Indexed(t) && EmailsIndexed(t)
            && t.profiles == s.profiles[p.id := p] && t.emails == s.emails[p.emailHash := p.id]
            && t.conversations == s.conversations[c.id := c]
            && Owned(t, p.id) == Owned(s, p.id)[c.name := c.id]
  {
    hide Indexed, EmailsIndexed;
    CreateUserKeepsEmailsExactly(s, p, c, calls);
    var mapped := s.(profiles := s.profiles[p.id := p], emails := s.emails[p.emailHash := p.id]);
    SameIndex(s, mapped);
    CreateKeepsIndexExactly(mapped, c, calls.conversation);
  }

  lemma SameIndex(s: Store, t: Store)
    requires Indexed(s) && t.conversations == s.conversations && t.owned == s.owned
    ensures Indexed(t)
  {
    forall id | id in t.conversations
      ensures Owned(t, t.conversations[id].owner) == Owned(s, t.conversations[id].owner)
    {
    }
  }

  /** Deleting a user leaves no dangling name exactly when there is no conversation of the
      user whose name could not be removed although the conversation itself was deleted. */
  lemma DeleteUserDanglesExactly(s: Store, profileId: string, calls: DeleteUserCalls)
    requires NothingDangles(s) && calls.getProfile && calls.getMap && profileId in s.profiles
    ensures NothingDangles(UserDeleted(s, profileId, calls)) <==>
            forall n :: n in Owned(s, profileId) ==>
              var id := Owned(s, profileId)[n];
              calls.get(id) && calls.delete(id) ==> calls.remove(id)
  {
    var t, names := UserDeleted(s, profileId, calls), Owned(s, profileId);
    if n :| n in names && calls.get(names[n]) && calls.delete(names[n]) && !calls.remove(names[n]) {
      assert n in t.owned[profileId] && t.owned[profileId][n] == names[n];
      assert names[n] !in t.conversations;
      assert !NothingDangles(t);
    } else {
      forall p, n | p in t.owned && n in t.owned[p]
        ensures var id := t.owned[p][n];
                id != "" && id in t.conversations && t.conversations[id] == Conversation(id, p, n)
      {
        assert p in s.owned && n in s.owned[p] && t.owned[p][n] == s.owned[p][n];
        var id := s.owned[p][n];
        assert s.conversations[id] == Conversation(id, p, n);
        if id in names.Values {
          var m :| m in names && names[m] == id;
          assert s.conversations[id] == Conversation(id, profileId, m);
        }
      }
    }
  }

  const NO_FAILURE := DeleteUserCalls(true, true, true, _ => true, _ => true, _ => true, true)

  function OthersConversations(s: Store, profileId: string): map<string, Conversation> {
    map id | id in s.conversations && s.conversations[id].owner != profileId :: s.conversations[id]
  }

  /** What is left after deleting a user without failures. */
  predicate OnlyOthersLeft(s: Store, t: Store, profileId: string) {
    && Owned(t, profileId) == map[]
    && t.profiles == s.profiles - {profileId}
    && t.conversations == OthersConversations(s, profileId)
    && t.emails == (map e | e in s.emails && s.emails[e] != profileId :: s.emails[e])
    && t.owned.Keys == s.owned.Keys + {profileId}
    && forall p :: p in s.owned && p != profileId ==> t.owned[p] == s.owned[p]
  }

  lemma OwnersConversations(s: Store, profileId: string, id: string)
    requires Indexed(s) && id in s.conversations
    ensures id in Owned(s, profileId).Values <==> s.conversations[id].owner == profileId
  {
    var c, names := s.conversations[id], Owned(s, profileId);
    if id in names.Values {
      var n :| n in names && names[n] == id;
      NameLeads(s, profileId, n);
    }
  }

  lemma OnlyOthersAreLeft(s: Store, profileId: string)
    requires Indexed(s) && EmailsIndexed(s) && profileId in s.profiles
    ensures OnlyOthersLeft(s, UserDeleted(s, profileId, NO_FAILURE), profileId)
  {
    hide Indexed, EmailsIndexed, ConversationsDeleted;
    var t, left := UserDeleted(s, profileId, NO_FAILURE), s.emails - {s.profiles[profileId].emailHash};
    OthersConversationsLeft(s, profileId);
    OthersEmailsLeft(s, profileId);
    ConversationsDeletedRest(s, left, profileId, NO_FAILURE);
    assert t == ConversationsDeleted(s, profileId, NO_FAILURE).(emails := left, profiles := s.profiles - {profileId});
  }

  lemma OthersEmailsLeft(s: Store, profileId: string)
    requires EmailsIndexed(s) && profileId in s.profiles
    ensures s.emails - {s.profiles[profileId].emailHash}
            == map e | e in s.emails && s.emails[e] != profileId :: s.emails[e]
  {
  }

  lemma OthersConversationsLeft(s: Store, profileId: string)
    requires Indexed(s)
    ensures var t := ConversationsDeleted(s, profileId, NO_FAILURE);
            && t.conversations == OthersConversations(s, profileId)
            && Owned(t, profileId) == map[] && t.owned.Keys == s.owned.Keys + {profileId}
            && forall p :: p in s.owned && p != profileId ==> t.owned[p] == s.owned[p]
  {
    hide Indexed, NothingDangles, NothingHidden;
    var names := Owned(s, profileId);
    assert NothingDangles(s) by { IndexedParts(s); }
    forall n | n in names ensures names[n] in s.conversations {
      NameLeads(s, profileId, n);
    }
    forall id | id in s.conversations ensures id in names.Values <==> s.conversations[id].owner == profileId {
      OwnersConversations(s, profileId, id);
    }
    assert Owned(ConversationsDeleted(s, profileId, NO_FAILURE), profileId) == map[];
  }

  lemma OnlyOthersIndexed(s: Store, t: Store, profileId: string)
    requires Indexed(s) && EmailsIndexed(s) && OnlyOthersLeft(s, t, profileId)
    ensures Indexed(t) && EmailsIndexed(t)
  {
    assert t.owned[profileId] == map[];
    assert NothingDangles(t);
    forall id | id in t.conversations
      ensures Owned(t, t.conversations[id].owner) == Owned(s, s.conversations[id].owner)
    {
    }
  }

  /** Without failures, deleting a user empties its map, deletes its conversations, its
      profile and its e-mail mapping, and touches nothing of any other user. */
  lemma DeleteUserRemovesJustTheirs(s: Store, profileId: string)
    requires Indexed(s) && EmailsIndexed(s) && profileId in s.profiles
    ensures var t := UserDeleted(s, profileId, NO_FAILURE);
            OnlyOthersLeft(s, t, profileId) && Indexed(t) && EmailsIndexed(t)
  {
    hide UserDeleted, OnlyOthersLeft, Indexed, EmailsIndexed;
    OnlyOthersAreLeft(s, profileId);
    OnlyOthersIndexed(s, UserDeleted(s, profileId, NO_FAILURE), profileId);
  }

  lemma AllDeletedIsUnfailing(s: Store, profileId: string, calls: DeleteUserCalls)
    requires AllDeleted(s, profileId, calls, Owned(s, profileId).Keys) && NothingDangles(s)
    ensures ConversationsDeleted(s, profileId, calls) == ConversationsDeleted(s, profileId, NO_FAILURE)
  {
    var t, u := ConversationsDeleted(s, profileId, calls), ConversationsDeleted(s, profileId, NO_FAILURE);
    assert t.owned[profileId] == u.owned[profileId];
    assert t.conversations == u.conversations;
  }

  lemma NoConversationsLeft(s: Store, profileId: string, calls: DeleteUserCalls)
    requires Indexed(s)
    ensures var t := ConversationsDeleted(s, profileId, calls);
            AllDeleted(s, profileId, calls, Owned(s, profileId).Keys) <==>
            Owned(t, profileId) == map[] && t.conversations == OthersConversations(s, profileId)
  {
    hide Indexed, NothingDangles, NothingHidden, ConversationsDeleted, OthersConversations;
    var names := Owned(s, profileId);
    assert NothingDangles(s) by { IndexedParts(s); }
    if AllDeleted(s, profileId, calls, names.Keys) {
      AllDeletedIsUnfailing(s, profileId, calls);
      OthersConversationsLeft(s, profileId);
    } else {
      var n :| n in names && !(names[n] in s.conversations && calls.get(names[n]) && calls.remove(names[n])
                               && calls.delete(names[n]));
      NameLeads(s, profileId, n);
      LeftOver(s, profileId, calls, names[n]);
      OwnIsNotOthers(s, profileId, names[n]);
    }
  }

  lemma OwnIsNotOthers(s: Store, profileId: string, id: string)
    requires id in s.conversations && s.conversations[id].owner == profileId
    ensures id !in OthersConversations(s, profileId)
  {
  }

  /** The deletion of a user reports no failure exactly if the profile cannot be read, so that
      the user counts as deleted, or the map of the user's conversations can be read and
      nothing of the user is left. */
  lemma DeletionReportsExactly(s: Store, profileId: string, calls: DeleteUserCalls)
    requires Indexed(s) && EmailsIndexed(s) && profileId in s.profiles
    ensures var t := UserDeleted(s, profileId, calls);
            !DeletionFails(s, profileId, calls) <==>
            !calls.getProfile || (calls.getMap && OnlyOthersLeft(s, t, profileId))
  {
    hide Indexed, AllDeleted, ConversationsDeleted, OthersConversations;
    var hash := s.profiles[profileId].emailHash;
    var left := s.emails - {hash};
    NoConversationsLeft(s, profileId, calls);
    OthersConversationsLeft(s, profileId);
    OthersEmailsLeft(s, profileId);
    ConversationsDeletedRest(s, s.emails, profileId, calls);
    ConversationsDeletedRest(s, left, profileId, calls);
    SameCallsMade(s, s.(emails := left), profileId, calls);
    OwnedApart(s, profileId, calls);
    assert hash in s.emails && s.emails[hash] == profileId;
    var t := UserDeleted(s, profileId, calls);
    if calls.getProfile {
      assert t.emails == if calls.removeEmail then left else s.emails;
      assert t.profiles == if calls.deleteProfile then s.profiles - {profileId} else s.profiles;
    }
  }

  lemma OwnedApart(s: Store, profileId: string, calls: DeleteUserCalls)
    ensures var t := ConversationsDeleted(s, profileId, calls);
            && t.owned.Keys == s.owned.Keys + {profileId}
            && forall p :: p in s.owned && p != profileId ==> t.owned[p] == s.owned[p]
  {
  }

  // ----- what each operation keeps, whichever calls fail -----

  /** Each operation with the outcomes of its calls. */
  datatype Op =
    | CreateUser(profile: Profile, convoId: string, user: UserCalls)
    | DeleteUser(profileId: string, deletions: DeleteUserCalls)
    | CreateConversation(conversation: Conversation, creation: ConversationCalls)
    | DeleteConversation(owner: string, name: string, deletion: DeleteCalls)

  function FirstConversation(p: Profile, convoId: string): Conversation {
    Conversation(convoId, p.id, "Conversation 1")
  }

  function Apply(s: Store, op: Op): Store {
    match op
    case CreateUser(p, convoId, calls) => UserCreated(s, p, FirstConversation(p, convoId), calls)
    case DeleteUser(profileId, calls) => UserDeleted(s, profileId, calls)
    case CreateConversation(c, calls) => Created(s, c, calls)
    case DeleteConversation(owner, name, calls) => Deleted(s, owner, name, calls)
  }

  /** New ids are new. */
  predicate FreshIds(s: Store, op: Op) {
    match op
    case CreateUser(p, convoId, _) => p.id !in s.profiles && convoId != "" && convoId !in s.conversations
    case CreateConversation(c, _) => c.id != "" && c.id !in s.conversations
    case _ => true
  }

  /** A conversation that is stored is named, or cleaned up. */
  predicate CreationNames(s: Store, c: Conversation, calls: ConversationCalls) {
    calls.save ==> if calls.add then c.name !in Owned(s, c.owner) else calls.cleanup
  }

  /** A name and its conversation are deleted together, or neither. */
  predicate DeletedTogether(s: Store, profileId: string, calls: DeleteUserCalls) {
    var names := Owned(s, profileId);
    forall n :: n in names && calls.get(names[n]) ==> (calls.remove(names[n]) <==> calls.delete(names[n]))
  }

  /** The calls that keep the indexes of conversations right. */
  predicate KeepsIndex(s: Store, op: Op) {
    match op
    case CreateUser(p, convoId, calls) =>
      calls.saveProfile && calls.setEmail ==> CreationNames(s, FirstConversation(p, convoId), calls.conversation)
    case DeleteUser(profileId, calls) =>
      calls.getProfile && profileId in s.profiles && calls.getMap ==> DeletedTogether(s, profileId, calls)
    case CreateConversation(c, calls) => CreationNames(s, c, calls)
    case DeleteConversation(owner, name, calls) =>
      calls.lookup && calls.get && calls.remove && name in Owned(s, owner) ==> calls.delete
  }

  /** The calls that keep the e-mail index right. */
  predicate KeepsEmails(s: Store, op: Op) {
    match op
    case CreateUser(p, _, calls) => EmailCallsKeep(p.emailHash in s.emails, calls)
    case DeleteUser(profileId, calls) =>
      calls.getProfile && profileId in s.profiles ==> (calls.removeEmail <==> calls.deleteProfile)
    case _ => true
  }

  lemma CreationNamesExactly(s: Store, c: Conversation, calls: ConversationCalls)
    requires Indexed(s) && c.id != "" && c.id !in s.conversations
    ensures Indexed(Created(s, c, calls)) <==> CreationNames(s, c, calls)
    ensures NothingDangles(Created(s, c, calls)) || CreateSucceeds(calls)
  {
    hide Indexed;
    if CreateSucceeds(calls) {
      CreateKeepsIndexExactly(s, c, calls);
    } else {
      FailedCreate(s, c, calls);
      assert NothingDangles(s) by { IndexedParts(s); }
      if calls.save && !calls.cleanup {
        UnnamedIsHidden(s, c, calls);
      }
    }
  }

  lemma IndexedParts(s: Store)
    ensures Indexed(s) <==> NothingDangles(s) && NothingHidden(s)
  {
  }

  lemma UnnamedIsHidden(s: Store, c: Conversation, calls: ConversationCalls)
    requires NothingDangles(s) && c.id !in s.conversations
    requires calls.save && !calls.add && !calls.cleanup
    ensures !Indexed(Created(s, c, calls))
  {
    var t := Created(s, c, calls);
    assert t.conversations[c.id] == c && Owned(t, c.owner) == Owned(s, c.owner);
  }

  lemma SameIndexExactly(s: Store, t: Store)
    requires t.conversations == s.conversations && t.owned == s.owned
    ensures Indexed(t) <==> Indexed(s)
  {
    if Indexed(s) {
      SameIndex(s, t);
    } else if Indexed(t) {
      SameIndex(t, s);
    }
  }

  /** The conversations and indexes that a new user leaves. */
  lemma UserCreatedIndex(s: Store, p: Profile, c: Conversation, calls: UserCalls)
    ensures var t := UserCreated(s, p, c, calls);
            if calls.saveProfile && calls.setEmail then
              var u := Created(s, c, calls.conversation);
              t.conversations == u.conversations && t.owned == u.owned
            else t.conversations == s.conversations && t.owned == s.owned
  {
  }

  lemma CreateUserIndexExactly(s: Store, p: Profile, convoId: string, calls: UserCalls)
    requires Indexed(s) && convoId != "" && convoId !in s.conversations
    ensures var op := CreateUser(p, convoId, calls);
            Indexed(Apply(s, op)) <==> KeepsIndex(s, op)
  {
    hide Indexed, Created, UserCreated, CreationNames;
    var c := FirstConversation(p, convoId);
    UserCreatedIndex(s, p, c, calls);
    if calls.saveProfile && calls.setEmail {
      CreationNamesExactly(s, c, calls.conversation);
      SameIndexExactly(Created(s, c, calls.conversation), UserCreated(s, p, c, calls));
    } else {
      SameIndexExactly(s, UserCreated(s, p, c, calls));
    }
  }

  /** The indexes that a deleted user leaves. */
  lemma UserDeletedIndex(s: Store, profileId: string, calls: DeleteUserCalls)
    ensures var t := UserDeleted(s, profileId, calls);
            if calls.getProfile && profileId in s.profiles && calls.getMap then
              var u := ConversationsDeleted(s, profileId, calls);
              t.conversations == u.conversations && t.owned == u.owned
            else t.conversations == s.conversations && t.owned == s.owned
  {
  }

  /** What is left of a user's own conversations, and of everyone else's. */
  lemma LeftOver(s: Store, profileId: string, calls: DeleteUserCalls, id: string)
    requires Indexed(s) && id in s.conversations
    ensures var t, c := ConversationsDeleted(s, profileId, calls), s.conversations[id];
            && (id in t.conversations <==> !(c.owner == profileId && calls.get(id) && calls.delete(id)))
            && (c.name in Owned(t, c.owner) <==> !(c.owner == profileId && calls.get(id) && calls.remove(id)))
            && (c.name in Owned(t, c.owner) ==> Owned(t, c.owner)[c.name] == id)
            && (id in t.conversations ==> t.conversations[id] == c)
  {
    hide NothingDangles;
    assert NothingHidden(s);
    OwnersConversations(s, profileId, id);
  }

  lemma ConversationsDeletedExactly(s: Store, profileId: string, calls: DeleteUserCalls)
    requires Indexed(s)
    ensures Indexed(ConversationsDeleted(s, profileId, calls)) <==> DeletedTogether(s, profileId, calls)
  {
    hide Indexed, NothingDangles, NothingHidden, ConversationsDeleted;
    var t, names := ConversationsDeleted(s, profileId, calls), Owned(s, profileId);
    IndexedParts(s);
    IndexedParts(t);
    if DeletedTogether(s, profileId, calls) {
      TogetherHidesNothing(s, profileId, calls);
      TogetherDanglesNothing(s, profileId, calls);
    } else {
      var n :| n in names && calls.get(names[n]) && (calls.remove(names[n]) <==> !calls.delete(names[n]));
      NameLeads(s, profileId, n);
      LeftOver(s, profileId, calls, names[n]);
      NotBoth(t, Conversation(names[n], profileId, n));
    }
  }

  lemma TogetherHidesNothing(s: Store, profileId: string, calls: DeleteUserCalls)
    requires Indexed(s) && DeletedTogether(s, profileId, calls)
    ensures NothingHidden(ConversationsDeleted(s, profileId, calls))
  {
    hide Indexed, DeletedTogether, NothingDangles, ConversationsDeleted;
    var t := ConversationsDeleted(s, profileId, calls);
    LeftIsFromBefore(s, profileId, calls);
    forall id | id in t.conversations
      ensures var c := t.conversations[id];
              id != "" && c.id == id && c.name in Owned(t, c.owner) && Owned(t, c.owner)[c.name] == id
    {
      StoredIsNamed(s, id);
      LeftOver(s, profileId, calls, id);
      TogetherAt(s, profileId, calls, id);
    }
  }

  lemma TogetherDanglesNothing(s: Store, profileId: string, calls: DeleteUserCalls)
    requires Indexed(s) && DeletedTogether(s, profileId, calls)
    ensures NothingDangles(ConversationsDeleted(s, profileId, calls))
  {
    hide Indexed, DeletedTogether, NothingHidden, ConversationsDeleted;
    var t := ConversationsDeleted(s, profileId, calls);
    LeftIsFromBefore(s, profileId, calls);
    forall p, n | p in t.owned && n in t.owned[p]
      ensures var id := t.owned[p][n];
              id != "" && id in t.conversations && t.conversations[id] == Conversation(id, p, n)
    {
      var id := t.owned[p][n];
      assert NothingDangles(s) by { IndexedParts(s); }
      NameLeads(s, p, n);
      StoredIsNamed(s, id);
      LeftOver(s, profileId, calls, id);
      TogetherAt(s, profileId, calls, id);
    }
  }

  lemma StoredIsNamed(s: Store, id: string)
    requires Indexed(s) && id in s.conversations
    ensures var c := s.conversations[id];
            id != "" && c.id == id && c.name in Owned(s, c.owner) && Owned(s, c.owner)[c.name] == id
  {
  }

  lemma TogetherAt(s: Store, profileId: string, calls: DeleteUserCalls, id: string)
    requires Indexed(s) && DeletedTogether(s, profileId, calls)
    requires id in s.conversations
    ensures s.conversations[id].owner == profileId && calls.get(id) ==> (calls.remove(id) <==> calls.delete(id))
  {
    StoredIsNamed(s, id);
  }

  lemma LeftIsFromBefore(s: Store, profileId: string, calls: DeleteUserCalls)
    ensures var t := ConversationsDeleted(s, profileId, calls);
            && (forall id :: id in t.conversations ==> id in s.conversations)
            && (forall p, n :: p in t.owned && n in t.owned[p] ==> n in Owned(s, p) && Owned(s, p)[n] == t.owned[p][n])
  {
  }

  /** A conversation without its name is hidden, and a name without its conversation dangles. */
  lemma NotBoth(t: Store, c: Conversation)
    requires c.id in t.conversations ==> t.conversations[c.id] == c
    requires c.name in Owned(t, c.owner) ==> Owned(t, c.owner)[c.name] == c.id
    requires c.id in t.conversations <==> c.name !in Owned(t, c.owner)
    ensures !Indexed(t)
  {
  }

  lemma DeleteUserEmailsExactly(s: Store, profileId: string, calls: DeleteUserCalls)
    requires EmailsIndexed(s) && calls.getProfile && profileId in s.profiles
    ensures EmailsIndexed(UserDeleted(s, profileId, calls)) <==> (calls.removeEmail <==> calls.deleteProfile)
  {
    hide ConversationsDeleted;
    var t, hash := UserDeleted(s, profileId, calls), s.profiles[profileId].emailHash;
    ConversationsDeletedRest(s, s.emails, profileId, calls);
    ConversationsDeletedRest(s, s.emails - {hash}, profileId, calls);
    assert t.emails == if calls.removeEmail then s.emails - {hash} else s.emails;
    assert t.profiles == if calls.deleteProfile then s.profiles - {profileId} else s.profiles;
    if calls.removeEmail && !calls.deleteProfile {
      assert profileId in t.profiles && t.profiles[profileId].emailHash !in t.emails;
    } else if !calls.removeEmail && calls.deleteProfile {
      assert hash in t.emails && t.emails[hash] !in t.profiles;
    }
  }

  /** Every operation keeps the indexes of conversations right under exactly the calls of
      `KeepsIndex`, and the e-mail index under exactly those of `KeepsEmails`. */
  lemma ApplyKeepsExactly(s: Store, op: Op)
    requires Indexed(s) && EmailsIndexed(s) && FreshIds(s, op)
    ensures Indexed(Apply(s, op)) <==> KeepsIndex(s, op)
    ensures EmailsIndexed(Apply(s, op)) <==> KeepsEmails(s, op)
  {
    hide Indexed, EmailsIndexed, UserDeleted, UserCreated, Created, CreationNames, ConversationsDeleted;
    hide DeletedTogether, EmailCallsKeep;
    match op
    case CreateUser(p, convoId, calls) =>
      CreateUserIndexExactly(s, p, convoId, calls);
      CreateUserKeepsEmailsExactly(s, p, FirstConversation(p, convoId), calls);
    case DeleteUser(profileId, calls) => ApplyDeleteUser(s, profileId, calls);
    case CreateConversation(c, calls) =>
      CreationNamesExactly(s, c, calls);
      CreatedRest(s, c, calls);
      SameEmails(s, Apply(s, op));
    case DeleteConversation(owner, name, calls) =>
      DeleteKeepsIndex(s, owner, name, calls);
      IndexedParts(Apply(s, op));
      SameEmails(s, Apply(s, op));
  }

  lemma CreatedRest(s: Store, c: Conversation, calls: ConversationCalls)
    ensures var t := Created(s, c, calls); t.profiles == s.profiles && t.emails == s.emails
  {
  }

  lemma ApplyDeleteUser(s: Store, profileId: string, calls: DeleteUserCalls)
    requires Indexed(s) && EmailsIndexed(s)
    ensures var op := DeleteUser(profileId, calls);
            && (Indexed(Apply(s, op)) <==> KeepsIndex(s, op))
            && (EmailsIndexed(Apply(s, op)) <==> KeepsEmails(s, op))
  {
    hide Indexed, EmailsIndexed, ConversationsDeleted, DeletedTogether;
    var t := UserDeleted(s, profileId, calls);
    UserDeletedIndex(s, profileId, calls);
    if calls.getProfile && profileId in s.profiles {
      DeleteUserEmailsExactly(s, profileId, calls);
      if calls.getMap {
        ConversationsDeletedExactly(s, profileId, calls);
        SameIndexExactly(ConversationsDeleted(s, profileId, calls), t);
      } else {
        SameIndexExactly(s, t);
      }
    }
  }

  lemma SameEmails(s: Store, t: Store)
    requires EmailsIndexed(s) && t.profiles == s.profiles && t.emails == s.emails
    ensures EmailsIndexed(t)
  {
  }

  // ----- runs -----

  predicate FreshRun(s: Store, ops: seq<Op>)
    decreases |ops|
  {
    |ops| > 0 ==> FreshIds(s, ops[0]) && FreshRun(Apply(s, ops[0]), ops[1..])
  }

  /** Both indexes are right at every moment of a run. */
  predicate AlwaysIndexed(s: Store, ops: seq<Op>)
    decreases |ops|
  {
    Indexed(s) && EmailsIndexed(s) && (|ops| > 0 ==> AlwaysIndexed(Apply(s, ops[0]), ops[1..]))
  }

  predicate KeepsAll(s: Store, ops: seq<Op>)
    decreases |ops|
  {
    |ops| > 0 ==> KeepsIndex(s, ops[0]) && KeepsEmails(s, ops[0]) && KeepsAll(Apply(s, ops[0]), ops[1..])
  }

  /** Over every sequence of creations and deletions on fresh ids, with any failures: at every
      moment each profile's map is a bijection onto the conversations it owns, and the e-mail
      map one onto the profiles, exactly if the calls of every operation keep them so. */
  lemma {:induction false} RunIndexedExactly(s: Store, ops: seq<Op>)
    requires Indexed(s) && EmailsIndexed(s) && FreshRun(s, ops)
    ensures AlwaysIndexed(s, ops) <==> KeepsAll(s, ops)
    decreases |ops|
  {
    hide Indexed, EmailsIndexed, Apply, FreshIds, KeepsIndex, KeepsEmails;
    if |ops| > 0 {
      var t := Apply(s, ops[0]);
      ApplyKeepsExactly(s, ops[0]);
      if Indexed(t) && EmailsIndexed(t) {
        RunIndexedExactly(t, ops[1..]);
      } else {
        NotAlways(t, ops[1..]);
      }
    }
  }

  lemma NotAlways(s: Store, ops: seq<Op>)
    requires !(Indexed(s) && EmailsIndexed(s))
    ensures !AlwaysIndexed(s, ops)
  {
  }

  /** An operation without failures, on an unused name and e-mail hash. */
  predicate Unfailing(s: Store, op: Op) {
    match op
    case CreateUser(p, _, calls) =>
      UserSucceeds(calls) && p.emailHash !in s.emails && "Conversation 1" !in Owned(s, p.id)
    case DeleteUser(profileId, calls) => calls.getProfile && !DeletionFails(s, profileId, calls)
    case CreateConversation(c, calls) => CreateSucceeds(calls) && c.name !in Owned(s, c.owner)
    case DeleteConversation(_, _, calls) => calls == DeleteCalls(true, true, true, true, true)
  }

  predicate UnfailingRun(s: Store, ops: seq<Op>)
    decreases |ops|
  {
    |ops| > 0 ==> Unfailing(s, ops[0]) && UnfailingRun(Apply(s, ops[0]), ops[1..])
  }

  /** So it is, in particular, when no call fails and no name or e-mail hash is in use. */
  lemma {:induction false} UnfailingKeepsAll(s: Store, ops: seq<Op>)
    requires UnfailingRun(s, ops)
    ensures KeepsAll(s, ops)
    decreases |ops|
  {
    hide Apply;
    if |ops| > 0 {
      UnfailingKeepsAll(Apply(s, ops[0]), ops[1..]);
    }
  }

  /** Whether a deletion removes a conversation whose name it then fails to remove. */
  predicate LeavesName(s: Store, op: Op) {
    op.DeleteUser? && op.deletions.getProfile && op.profileId in s.profiles && op.deletions.getMap
    && var names := Owned(s, op.profileId);
    exists n :: n in names && op.deletions.get(names[n]) && op.deletions.delete(names[n])
                && !op.deletions.remove(names[n])
  }

  lemma ApplyDanglesExactly(s: Store, op: Op)
    requires NothingDangles(s) && FreshIds(s, op)
    ensures NothingDangles(Apply(s, op)) <==> !LeavesName(s, op)
  {
    match op
    case CreateUser(p, convoId, calls) =>
      var c := FirstConversation(p, convoId);
      UserCreatedIndex(s, p, c, calls);
      CreateLeavesNoDangling(s, c, calls.conversation);
      hide UserCreated, Created;
      if calls.saveProfile && calls.setEmail {
        SameIndexDangles(Created(s, c, calls.conversation), Apply(s, op));
      } else {
        SameIndexDangles(s, Apply(s, op));
      }
    case DeleteUser(profileId, calls) =>
      hide NothingDangles;
      UserDeletedIndex(s, profileId, calls);
      if calls.getProfile && profileId in s.profiles && calls.getMap {
        DeleteUserDanglesExactly(s, profileId, calls);
      } else {
        SameIndexDangles(s, Apply(s, op));
      }
    case CreateConversation(c, calls) => CreateLeavesNoDangling(s, c, calls);
    case DeleteConversation(owner, name, calls) => DeleteLeavesNoDangling(s, owner, name, calls);
  }

  lemma CreateLeavesNoDangling(s: Store, c: Conversation, calls: ConversationCalls)
    requires NothingDangles(s) && c.id != "" && c.id !in s.conversations
    ensures NothingDangles(Created(s, c, calls))
  {
  }

  predicate NeverDangles(s: Store, ops: seq<Op>)
    decreases |ops|
  {
    NothingDangles(s) && (|ops| > 0 ==> NeverDangles(Apply(s, ops[0]), ops[1..]))
  }

  predicate NeverLeavesName(s: Store, ops: seq<Op>)
    decreases |ops|
  {
    |ops| > 0 ==> !LeavesName(s, ops[0]) && NeverLeavesName(Apply(s, ops[0]), ops[1..])
  }

  /** Over every such run, whatever else fails or is in use, no name ever dangles exactly if
      no deletion of a user removes a conversation but not its name. */
  lemma {:induction false} RunDanglesExactly(s: Store, ops: seq<Op>)
    requires NothingDangles(s) && FreshRun(s, ops)
    ensures NeverDangles(s, ops) <==> NeverLeavesName(s, ops)
    decreases |ops|
  {
    hide NothingDangles, Apply, FreshIds, LeavesName;
    if |ops| > 0 {
      ApplyDanglesExactly(s, ops[0]);
      if !LeavesName(s, ops[0]) {
        RunDanglesExactly(Apply(s, ops[0]), ops[1..]);
      }
    }
  }

  // ----- where names lead, whatever fails -----

  /** New ids are new, and no name leads to one that is not stored any more. */
  predicate UnnamedIds(s: Store, op: Op) {
    match op
    case CreateUser(_, convoId, _) => Unnamed(s, convoId)
    case CreateConversation(c, _) => Unnamed(s, c.id)
    case _ => true
  }

  predicate Unnamed(s: Store, id: string) {
    forall p, n :: p in s.owned && n in s.owned[p] ==> s.owned[p][n] != id
  }

  lemma CreatedLeads(s: Store, c: Conversation, calls: ConversationCalls)
    requires NamesLead(s) && c.id != "" && Unnamed(s, c.id)
    ensures NamesLead(Created(s, c, calls))
  {
  }

  lemma DeletedLeads(s: Store, profileId: string, name: string, calls: DeleteCalls)
    requires NamesLead(s)
    ensures NamesLead(Deleted(s, profileId, name, calls))
  {
    if name in Owned(s, profileId) {
      NameLeads(s, profileId, name);
    }
  }

  lemma ConversationsDeletedLeads(s: Store, profileId: string, calls: DeleteUserCalls)
    requires NamesLead(s)
    ensures NamesLead(ConversationsDeleted(s, profileId, calls))
  {
    var t := ConversationsDeleted(s, profileId, calls);
    hide ConversationsDeleted;
    LeftIsFromBefore(s, profileId, calls);
    LeftIsSame(s, profileId, calls);
  }

  lemma LeftIsSame(s: Store, profileId: string, calls: DeleteUserCalls)
    ensures var t := ConversationsDeleted(s, profileId, calls);
            forall id :: id in t.conversations ==> t.conversations[id] == s.conversations[id]
  {
  }

  lemma ApplyLeads(s: Store, op: Op)
    requires NamesLead(s) && FreshIds(s, op) && UnnamedIds(s, op)
    ensures NamesLead(Apply(s, op))
  {
    hide NamesLead, Unnamed, Created, Deleted, UserCreated, UserDeleted, ConversationsDeleted;
    match op
    case CreateUser(p, convoId, calls) =>
      var c := FirstConversation(p, convoId);
      UserCreatedIndex(s, p, c, calls);
      CreatedLeads(s, c, calls.conversation);
      SameIndexLeads(if calls.saveProfile && calls.setEmail then Created(s, c, calls.conversation) else s,
                     Apply(s, op));
    case DeleteUser(profileId, calls) =>
      UserDeletedIndex(s, profileId, calls);
      ConversationsDeletedLeads(s, profileId, calls);
      SameIndexLeads(if calls.getProfile && profileId in s.profiles && calls.getMap
                     then ConversationsDeleted(s, profileId, calls) else s, Apply(s, op));
    case CreateConversation(c, calls) => CreatedLeads(s, c, calls);
    case DeleteConversation(owner, name, calls) => DeletedLeads(s, owner, name, calls);
  }

  predicate NewIdsRun(s: Store, ops: seq<Op>)
    decreases |ops|
  {
    |ops| > 0 ==> FreshIds(s, ops[0]) && UnnamedIds(s, ops[0]) && NewIdsRun(Apply(s, ops[0]), ops[1..])
  }

  function Run(s: Store, ops: seq<Op>): Store
    decreases |ops|
  {
    if |ops| == 0 then s else Run(Apply(s, ops[0]), ops[1..])
  }

  /** Over every run on ids that were never used, whatever fails and whatever names are in use,
      a name leads to the conversation of that name and owner, or to none that is stored.  So
      no deletion ever finds someone else's conversation to relink, and every deletion that
      reports success has removed the name. */
  lemma {:induction false} RunNamesLead(s: Store, ops: seq<Op>)
    requires NamesLead(s) && NewIdsRun(s, ops)
    ensures var t := Run(s, ops);
            && NamesLead(t)
            && forall p, n :: n in Owned(t, p) && Owned(t, p)[n] in t.conversations ==>
                 t.conversations[Owned(t, p)[n]].owner == p
    decreases |ops|
  {
    hide Apply, FreshIds, UnnamedIds;
    if |ops| > 0 {
      ApplyLeads(s, ops[0]);
      RunNamesLead(Apply(s, ops[0]), ops[1..]);
    }
  }
}

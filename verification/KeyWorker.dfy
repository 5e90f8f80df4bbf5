/** The worker that holds the key contexts: its message handlers and the callbacks of its promises. */
module KeyWorker {
  import opened Wrappers
  import opened KeyContexts

  class Worker {
    const env: Env
    var password: Password
    var metadataByMid: map<Mid, UserId>
    var decryptContextByMid: map<Mid, Context>
    /** Promises that are not settled. */
    ghost var pending: set<Derivation>
    ghost var regenerations: nat
    var clock: nat

    ghost function View(): State reads this {
      State(clock, password, metadataByMid, decryptContextByMid, pending, regenerations)
    }

    constructor (env: Env)
      ensures this.env == env && View() == START
    {
      this.env := env;
      password, metadataByMid, decryptContextByMid, clock := [], map[], map[], 0;
      pending, regenerations := {}, 0;
    }

    /** Starts a derivation unless the context is as it should be or there is no password. */
    method UpdateDecryptContext(mid: Mid, userId: UserId)
      modifies this`decryptContextByMid, this`pending
      ensures decryptContextByMid == old(decryptContextByMid)[mid := Renewed(old(View()), mid, userId)]
      ensures pending == old(pending) +
                         if NeedsKey(old(View()), mid, userId) then {Request(old(View()), mid, userId)} else {}
    {
      var resolved := if mid in metadataByMid then metadataByMid[mid] else userId;
      if mid in decryptContextByMid {
        var c := decryptContextByMid[mid];
        if c.userId == resolved && c.password == password {
          return;
        }
      }
      decryptContextByMid := decryptContextByMid[mid := Context(clock, resolved, password, None)];
      if password == [] {
        return;
      }
      pending := pending + {Derivation(mid, clock, resolved, password)};
    }

    method OnPassword(newPassword: Password)
      modifies this
      ensures View() == Ticked(React(old(View()), env, PasswordSet(newPassword)))
    {
      password := newPassword;
      regenerations := regenerations + 1;
      clock := clock + 1;
    }

    method OnDecrypt(mid: Mid, userId: UserId)
      modifies this
      ensures View() == Ticked(React(old(View()), env, TrackReceived(mid, userId)))
    {
      ghost var was := View();
      UpdateDecryptContext(mid, userId);
      RenewOne(was, mid, userId);
      clock := clock + 1;
    }

    method OnMetadata(metadata: seq<TrackMetadata>)
      modifies this
      ensures View() == Ticked(React(old(View()), env, MetadataReceived(metadata)))
    {
      hide WithMetadata, RenewSome;
      ghost var was := View();
      var named: map<Mid, UserId> := map[];
      for i := 0 to |metadata|
        invariant named == KeyBy(metadata, i)
      {
        named := named[metadata[i].mid := metadata[i].userId];
      }
      metadataByMid := named;
      var todo := decryptContextByMid.Keys;
      MetadataNone(was, named);
      while todo != {}
        invariant todo <= was.contexts.Keys
        invariant View() == MetadataSome(was, named, was.contexts.Keys - todo)
      {
        var mid :| mid in todo;
        MetadataOneMore(was, named, was.contexts.Keys - todo, mid);
        assert was.contexts.Keys - (todo - {mid}) == was.contexts.Keys - todo + {mid};
        todo := todo - {mid};
        if mid !in named {
          decryptContextByMid := decryptContextByMid - {mid};
        } else {
          UpdateDecryptContext(mid, named[mid]);
        }
      }
      assert was.contexts.Keys - todo == was.contexts.Keys;
      MetadataAll(was, named);
      clock := clock + 1;
    }

    /** What a password event starts once the encryption key was derived. */
    method Regenerate()
      requires regenerations > 0
      modifies this
      ensures View() == Ticked(React(old(View()), env, Regenerated))
    {
      hide RenewSome, RenewAll;
      ghost var was := View();
      var todo := decryptContextByMid.Keys;
      RenewSomeNone(was);
      while todo != {}
        invariant todo <= was.contexts.Keys
        invariant View() == RenewSome(was, Users(was), was.contexts.Keys - todo)
      {
        var mid :| mid in todo;
        RenewOneMore(was, Users(was), was.contexts.Keys - todo, mid);
        assert was.contexts.Keys - (todo - {mid}) == was.contexts.Keys - todo + {mid};
        todo := todo - {mid};
        UpdateDecryptContext(mid, decryptContextByMid[mid].userId);
      }
      assert was.contexts.Keys - todo == was.contexts.Keys;
      RenewSomeAll(was, Users(was));
      regenerations := regenerations - 1;
      clock := clock + 1;
    }

    method OnKey(d: Derivation)
      requires d in pending
      modifies this
      ensures View() == Ticked(React(old(View()), env, KeyDerived(d)))
    {
      var key := env.derive(d.password, Salt(env.url, d.userId));
      if d.mid in decryptContextByMid && decryptContextByMid[d.mid].id == d.id {
        decryptContextByMid := decryptContextByMid[d.mid := decryptContextByMid[d.mid].(key := Some(key))];
      }
      pending := pending - {d};
      clock := clock + 1;
    }
  }

  lemma {:induction false} RenewOne(s: State, mid: Mid, userId: UserId)
    ensures RenewAll(s, map[mid := userId]) ==
            s.(contexts := s.contexts[mid := Renewed(s, mid, userId)],
               pending := s.pending + if NeedsKey(s, mid, userId) then {Request(s, mid, userId)} else {})
  {
    var users := map[mid := userId];
    assert (set m | m in users && NeedsKey(s, m, users[m]) :: Request(s, m, users[m])) ==
           if NeedsKey(s, mid, userId) then {Request(s, mid, userId)} else {} by {
      assert users[mid] == userId;
    }
  }

  // ---------------------------------------------------------------- the loops, part of the way

  function Only(users: map<Mid, UserId>, mids: set<Mid>): map<Mid, UserId> {
    map mid | mid in users && mid in mids :: users[mid]
  }

  function RenewSome(s: State, users: map<Mid, UserId>, mids: set<Mid>): State {
    RenewAll(s, Only(users, mids))
  }

  lemma {:induction false} RenewSomeNone(s: State)
    ensures RenewSome(s, Users(s), s.contexts.Keys - s.contexts.Keys) == s
  {
    var r := RenewSome(s, Users(s), s.contexts.Keys - s.contexts.Keys);
    assert r.contexts == s.contexts;
    assert r.pending == s.pending;
  }

  lemma {:induction false} RenewSomeAll(s: State, users: map<Mid, UserId>)
    requires users.Keys <= s.contexts.Keys
    ensures RenewSome(s, users, s.contexts.Keys) == RenewAll(s, users)
    ensures RenewAll(s, users).regenerations == s.regenerations
  {
    assert Only(users, s.contexts.Keys) == users;
  }

  /** Renewing one more mid commutes with those already renewed. */
  lemma {:induction false} RenewOneMore(s: State, users: map<Mid, UserId>, mids: set<Mid>, mid: Mid)
    requires mid in users && mid !in mids && mid in s.contexts
    ensures var now := RenewSome(s, users, mids);
            && mid in now.contexts && now.contexts[mid] == s.contexts[mid]
            && RenewSome(s, users, mids + {mid}) ==
               now.(contexts := now.contexts[mid := Renewed(now, mid, users[mid])],
                    pending := now.pending +
                      if NeedsKey(now, mid, users[mid]) then {Request(now, mid, users[mid])} else {})
  {
    var now := RenewSome(s, users, mids);
    assert Renewed(now, mid, users[mid]) == Renewed(s, mid, users[mid]);
    assert NeedsKey(now, mid, users[mid]) == NeedsKey(s, mid, users[mid]);
    assert Request(now, mid, users[mid]) == Request(s, mid, users[mid]);
    RequestsOneMore(s, users, mids, mid);
    var next := RenewSome(s, users, mids + {mid});
    assert next.contexts == now.contexts[mid := Renewed(s, mid, users[mid])];
  }

  function Requests(s: State, users: map<Mid, UserId>): set<Derivation> {
    set mid | mid in users && NeedsKey(s, mid, users[mid]) :: Request(s, mid, users[mid])
  }

  lemma {:induction false} RequestsOneMore(s: State, users: map<Mid, UserId>, mids: set<Mid>, mid: Mid)
    requires mid in users
    ensures Requests(s, Only(users, mids + {mid})) ==
            Requests(s, Only(users, mids)) + if NeedsKey(s, mid, users[mid]) then {Request(s, mid, users[mid])} else {}
  {
    hide NeedsKey, Request;
    assert Only(users, mids + {mid})[mid] == users[mid];
  }

  /** The mids of done are renewed or gone, the others still have their old context. */
  function MetadataSome(s: State, named: map<Mid, UserId>, done: set<Mid>): State {
    var kept := s.(metadataByMid := named,
                   contexts := map mid | mid in s.contexts && (mid in named || mid !in done) :: s.contexts[mid]);
    RenewSome(kept, map mid | mid in s.contexts && mid in named :: named[mid], done)
  }

  lemma {:induction false} MetadataNone(s: State, named: map<Mid, UserId>)
    ensures MetadataSome(s, named, s.contexts.Keys - s.contexts.Keys) == s.(metadataByMid := named)
  {
    var r := MetadataSome(s, named, s.contexts.Keys - s.contexts.Keys);
    assert r.contexts == s.contexts;
    assert r.pending == s.pending;
  }

  lemma {:induction false} MetadataAll(s: State, named: map<Mid, UserId>)
    ensures MetadataSome(s, named, s.contexts.Keys) == WithMetadata(s, named)
  {
    var users := map mid | mid in s.contexts && mid in named :: named[mid];
    assert Only(users, s.contexts.Keys) == users;
    assert (map mid | mid in s.contexts && (mid in named || mid !in s.contexts.Keys) :: s.contexts[mid]) ==
           (map mid | mid in s.contexts && mid in named :: s.contexts[mid]);
  }

  lemma {:induction false} RenewWithout(s: State, users: map<Mid, UserId>, mid: Mid)
    requires mid !in users
    ensures RenewAll(s.(contexts := s.contexts - {mid}), users) ==
            RenewAll(s, users).(contexts := RenewAll(s, users).contexts - {mid})
  {
    var less := s.(contexts := s.contexts - {mid});
    forall m | m in users
      ensures NeedsKey(less, m, users[m]) == NeedsKey(s, m, users[m])
      ensures Request(less, m, users[m]) == Request(s, m, users[m])
      ensures Renewed(less, m, users[m]) == Renewed(s, m, users[m])
    {
    }
    assert Requests(less, users) == Requests(s, users) by {
      hide NeedsKey, Request;
    }
    hide NeedsKey, Request, Renewed;
    assert RenewAll(less, users).contexts == RenewAll(s, users).contexts - {mid};
  }

  lemma {:induction false} MetadataOneMore(s: State, named: map<Mid, UserId>, done: set<Mid>, mid: Mid)
    requires mid in s.contexts && mid !in done
    ensures var now := MetadataSome(s, named, done);
            && mid in now.contexts
            && MetadataSome(s, named, done + {mid}) ==
               if mid !in named then now.(contexts := now.contexts - {mid})
               else now.(contexts := now.contexts[mid := Renewed(now, mid, named[mid])],
                         pending := now.pending +
                           if NeedsKey(now, mid, named[mid]) then {Request(now, mid, named[mid])} else {})
  {
    hide NeedsKey, Request, Renewed;
    var users := map m | m in s.contexts && m in named :: named[m];
    var kept := s.(metadataByMid := named,
                   contexts := map m | m in s.contexts && (m in named || m !in done) :: s.contexts[m]);
    var rest := map m | m in s.contexts && (m in named || m !in done + {mid}) :: s.contexts[m];
    if mid in named {
      assert rest == kept.contexts;
      RenewOneMore(kept, users, done, mid);
    } else {
      assert Only(users, done + {mid}) == Only(users, done);
      assert rest == kept.contexts - {mid};
      RenewWithout(kept, Only(users, done), mid);
    }
  }
}

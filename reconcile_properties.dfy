/**
 * Properties of the reconciliation: sequential composition, preservation of the
 * registries' invariant, profile merging, "last secret wins" and idempotence of a
 * re-sync.
 */
module ReconcileProperties {
  import opened Types
  import opened Secrets
  import opened Reconcile

  // ---- mergeProfileName ------------------------------------------------------------

  /** Merging the same name twice returns the same profile and the second call changes nothing. */
  lemma MergeProfileNameIdempotent(ps: ProfileStore, name: string)
    ensures var first := MergeProfileName(ps, name);
            var second := MergeProfileName(first.store, name);
            second.profile == first.profile && second.store == first.store
  {
  }

  /** Two different names resolve to two different profiles, whatever order they are merged in. */
  lemma MergeDistinctNames(ps: ProfileStore, a: string, b: string)
    requires ProfileStoreValid(ps)
    requires a != b
    ensures var first := MergeProfileName(ps, a);
            MergeProfileName(first.store, b).profile.id != first.profile.id
  {
    var first := MergeProfileName(ps, a);
    if b in first.store.ids {
      assert first.store.ids[a] == first.profile.id;
    }
  }

  // ---- setupAwsSession -------------------------------------------------------------

  /**
   * Two first-time setups with the same profile name, for two sessions not yet
   * registered, return the same profile id, and the second creates no profile.
   */
  lemma SetupSameNameSameProfile(st: LocalState, s1: SessionId, s2: SessionId, name: string)
    requires s1 !in st.sessions && s2 !in st.sessions
    ensures var first := SetupAwsSession(st, s1, name);
            var second := SetupAwsSession(first.state, s2, name);
            second.profileId == first.profileId && second.state.profiles == first.state.profiles
  {
  }

  /** The registries' invariant survives `setupAwsSession`. */
  lemma SetupAwsSessionPreservesValid(st: LocalState, sessionId: SessionId, profileName: string)
    requires StateValid(st)
    ensures StateValid(SetupAwsSession(st, sessionId, profileName).state)
  {
    var r := SetupAwsSession(st, sessionId, profileName);
    forall k | k in r.state.sessions ensures r.state.sessions[k].profileId in r.state.profiles.ids.Values {
      var n :| n in st.profiles.ids && st.profiles.ids[n] == st.sessions[k].profileId;
      assert r.state.profiles.ids[n] == st.profiles.ids[n];
    }
  }

  // ---- syncSecret ------------------------------------------------------------------

  /** The registries' invariant survives one secret, and the session's profile is registered. */
  lemma SyncSecretPreservesValid(st: LocalState, x: LocalSecret)
    requires StateValid(st)
    ensures StateValid(SyncSecret(st, x))
  {
    if x.IsSession() {
      var r := SyncSecret(st, x);
      var merged := MergeProfileName(st.profiles, x.profileName);
      forall k | k in r.sessions
        ensures r.sessions[k].sessionId == k && r.sessions[k].profileId in r.profiles.ids.Values
      {
        if k == x.sessionId {
          if x.sessionId !in st.sessions {
            assert r.profiles.ids[x.profileName] == r.sessions[k].profileId;
          }
        } else {
          assert k in st.sessions - {x.sessionId};
          var n :| n in st.profiles.ids && st.profiles.ids[n] == st.sessions[k].profileId;
          assert r.profiles.ids[n] == st.profiles.ids[n];
        }
      }
    }
  }

  /** Syncing the same session secret twice in a row ends where syncing it once did. */
  lemma SyncSecretTwice(st: LocalState, x: LocalSecret)
    requires x.IsSession()
    ensures SyncSecret(SyncSecret(st, x), x) == SyncSecret(st, x)
  {
    var once := SyncSecret(st, x);
    var twice := SyncSecret(once, x);
    assert twice.sessions == once.sessions by {
      assert twice.sessions - {x.sessionId} == once.sessions - {x.sessionId};
      assert twice.sessions.Keys == once.sessions.Keys;
    }
  }

  // ---- syncSecrets: the loop over the vault's list ------------------------------------

  /**
   * The loop is sequential composition: processing `a + b` is processing `a` and then,
   * from the state `a` left, processing `b`. So each secret sees every change made by
   * the secrets before it.
   */
  lemma {:induction false} SyncAllAppend(st: LocalState, a: seq<LocalSecret>, b: seq<LocalSecret>)
    ensures SyncAll(st, a + b) == SyncAll(SyncAll(st, a), b)
    decreases |b|
  {
    if b == [] {
      assert a + b == a;
    } else {
      var last := |b| - 1;
      assert (a + b)[..|a + b| - 1] == a + b[..last];
      assert (a + b)[|a + b| - 1] == b[last];
      SyncAllAppend(st, a, b[..last]);
    }
  }

  /** A secret with an unrecognised tag may be removed from the list without changing the result. */
  lemma SyncAllSkipsUnrecognized(st: LocalState, a: seq<LocalSecret>, u: LocalSecret, b: seq<LocalSecret>)
    requires u.UnrecognizedSecret?
    ensures SyncAll(st, a + [u] + b) == SyncAll(st, a + b)
  {
    SyncAllAppend(st, a + [u], b);
    SyncAllAppend(st, a, b);
    assert (a + [u])[..|a + [u]| - 1] == a;
  }

  /** The registries' invariant survives a whole synchronisation. */
  lemma {:induction false} SyncAllPreservesValid(st: LocalState, ss: seq<LocalSecret>)
    requires StateValid(st)
    ensures StateValid(SyncAll(st, ss))
    decreases |ss|
  {
    if ss != [] {
      SyncAllPreservesValid(st, ss[..|ss| - 1]);
      SyncSecretPreservesValid(SyncAll(st, ss[..|ss| - 1]), ss[|ss| - 1]);
    }
  }

  /** `x` is a session secret for session id `k`. */
  predicate NamesSession(x: LocalSecret, k: SessionId) {
    x.IsSession() && x.sessionId == k
  }

  /**
   * The last session secret in `ss` with session id `k`, if any: it stands at some
   * index `i` of `ss`, and no session secret after `i` names `k`.
   */
  ghost function LastSessionSecret(ss: seq<LocalSecret>, k: SessionId): (r: Option<LocalSecret>)
    ensures r.Some? ==> NamesSession(r.value, k) && r.value in ss
    ensures r.Some? ==>
      exists i :: 0 <= i < |ss| && ss[i] == r.value && forall j :: i < j < |ss| ==> !NamesSession(ss[j], k)
    ensures r.None? ==> forall x :: x in ss ==> !NamesSession(x, k)
    decreases |ss|
  {
    if ss == [] then None
    else
      var n := |ss| - 1;
      if NamesSession(ss[n], k) then
        Some(ss[n])
      else
        assert ss == ss[..n] + [ss[n]];
        var r := LastSessionSecret(ss[..n], k);
        if r.Some? then
          var i :| 0 <= i < n && ss[..n][i] == r.value && forall j :: i < j < n ==> !NamesSession(ss[..n][j], k);
          assert ss[i] == r.value && forall j :: i < j < |ss| ==> !NamesSession(ss[j], k);
          r
        else
          r
  }

  /**
   * The first session secret in `ss` with session id `k`, if any: it stands at some
   * index `i` of `ss`, and no session secret before `i` names `k`.
   */
  ghost function FirstSessionSecret(ss: seq<LocalSecret>, k: SessionId): (r: Option<LocalSecret>)
    ensures r.Some? ==> NamesSession(r.value, k) && r.value in ss
    ensures r.Some? ==>
      exists i :: 0 <= i < |ss| && ss[i] == r.value && forall j :: 0 <= j < i ==> !NamesSession(ss[j], k)
    ensures r.None? ==> forall x :: x in ss ==> !NamesSession(x, k)
    decreases |ss|
  {
    if ss == [] then None
    else
      var n := |ss| - 1;
      assert ss == ss[..n] + [ss[n]];
      var r := FirstSessionSecret(ss[..n], k);
      if r.Some? then
        var i :| 0 <= i < n && ss[..n][i] == r.value && forall j :: 0 <= j < i ==> !NamesSession(ss[..n][j], k);
        assert ss[i] == r.value && forall j :: 0 <= j < i ==> !NamesSession(ss[j], k);
        r
      else if NamesSession(ss[n], k) then
        assert forall j :: 0 <= j < n ==> !NamesSession(ss[j], k) by {
          forall j | 0 <= j < n ensures !NamesSession(ss[j], k) { assert ss[j] == ss[..n][j]; }
        }
        Some(ss[n])
      else
        None
  }

  /**
   * After a synchronisation, a session id named by some session secret holds the
   * session built from the LAST such secret; every other session id is as it was.
   */
  lemma {:induction false} SyncAllLastWins(st: LocalState, ss: seq<LocalSecret>, k: SessionId)
    ensures var r := SyncAll(st, ss);
            LastSessionSecret(ss, k).Some? ==>
              k in r.sessions && r.sessions[k] == SessionFor(LastSessionSecret(ss, k).value, r.sessions[k].profileId)
    ensures var r := SyncAll(st, ss);
            LastSessionSecret(ss, k).None? ==>
              (k in r.sessions <==> k in st.sessions) && (k in st.sessions ==> r.sessions[k] == st.sessions[k])
    decreases |ss|
  {
    if ss != [] {
      var init := ss[..|ss| - 1];
      var x := ss[|ss| - 1];
      SyncAllLastWins(st, init, k);
      var m := SyncAll(st, init);
      var r := SyncSecret(m, x);
      if x.IsSession() && x.sessionId != k {
        assert k in r.sessions <==> k in r.sessions - {x.sessionId};
        assert k in m.sessions <==> k in m.sessions - {x.sessionId};
        if k in m.sessions {
          assert r.sessions[k] == (r.sessions - {x.sessionId})[k];
        }
      }
    }
  }

  /**
   * A session registered before a synchronisation is still registered afterwards and
   * still bound to the same profile, whatever the list holds.
   */
  lemma {:induction false} SyncAllKeepsBindings(st: LocalState, ss: seq<LocalSecret>, k: SessionId)
    requires k in st.sessions
    ensures var r := SyncAll(st, ss);
            k in r.sessions && r.sessions[k].profileId == st.sessions[k].profileId
    decreases |ss|
  {
    if ss != [] {
      var x := ss[|ss| - 1];
      SyncAllKeepsBindings(st, ss[..|ss| - 1], k);
      var m := SyncAll(st, ss[..|ss| - 1]);
      var r := SyncSecret(m, x);
      if x.IsSession() && x.sessionId != k {
        assert k in m.sessions - {x.sessionId};
        assert r.sessions[k] == (r.sessions - {x.sessionId})[k];
      }
    }
  }

  /** Every session id a list of secrets names. */
  ghost predicate Covers(st: LocalState, ss: seq<LocalSecret>) {
    forall x :: x in ss && x.IsSession() ==> x.sessionId in st.sessions
  }

  /**
   * When every session secret's id is already registered, a synchronisation creates no
   * profile, registers no new session id, and keeps every session's profile.
   */
  lemma {:induction false} SyncAllCoveredKeepsBindings(st: LocalState, ss: seq<LocalSecret>)
    requires Covers(st, ss)
    ensures var r := SyncAll(st, ss);
            r.profiles == st.profiles && r.sessions.Keys == st.sessions.Keys &&
            forall k :: k in st.sessions ==> r.sessions[k].profileId == st.sessions[k].profileId
    decreases |ss|
  {
    if ss != [] {
      var init := ss[..|ss| - 1];
      var x := ss[|ss| - 1];
      assert Covers(st, init) by {
        forall y | y in init ensures y in ss { assert ss == init + [x]; }
      }
      SyncAllCoveredKeepsBindings(st, init);
      var m := SyncAll(st, init);
      var r := SyncSecret(m, x);
      if x.IsSession() {
        assert x.sessionId in m.sessions;
        forall k | k in r.sessions ensures k in st.sessions {
          if k != x.sessionId {
            assert k in r.sessions - {x.sessionId};
          }
        }
      }
    }
    forall k | k in st.sessions ensures SyncAll(st, ss).sessions[k].profileId == st.sessions[k].profileId {
      SyncAllKeepsBindings(st, ss, k);
    }
  }

  /**
   * Idempotence of `syncSecrets`: syncing the same list again leaves the sessions and
   * the profiles exactly as the first sync left them; only the integration list grows,
   * by the same SSO integrations once more.
   */
  lemma ResyncIsStable(st: LocalState, ss: seq<LocalSecret>)
    ensures var once := SyncAll(st, ss);
            var twice := SyncAll(once, ss);
            twice.sessions == once.sessions && twice.profiles == once.profiles &&
            twice.integrations == once.integrations + IntegrationsCreated(ss)
  {
    var once := SyncAll(st, ss);
    var twice := SyncAll(once, ss);
    assert Covers(once, ss) by {
      forall x | x in ss && x.IsSession() ensures x.sessionId in once.sessions {
        SyncAllLastWins(st, ss, x.sessionId);
      }
    }
    SyncAllCoveredKeepsBindings(once, ss);
    forall k | k in once.sessions ensures twice.sessions[k] == once.sessions[k] {
      SyncAllLastWins(st, ss, k);
      SyncAllLastWins(once, ss, k);
    }
  }

  /**
   * A session id not registered before the sync is bound to the profile registered
   * under the profile name of the FIRST secret that names it: that secret merged the
   * name, and every later secret for the id reused the profile.
   */
  lemma {:induction false} FirstNameBinds(st: LocalState, ss: seq<LocalSecret>, k: SessionId)
    requires k !in st.sessions
    requires FirstSessionSecret(ss, k).Some?
    ensures var r := SyncAll(st, ss);
            var name := FirstSessionSecret(ss, k).value.profileName;
            k in r.sessions && name in r.profiles.ids && r.profiles.ids[name] == r.sessions[k].profileId
    decreases |ss|
  {
    var n := |ss| - 1;
    var init, x := ss[..n], ss[n];
    var m := SyncAll(st, init);
    var r := SyncSecret(m, x);
    if FirstSessionSecret(init, k).Some? {
      FirstNameBinds(st, init, k);
      if x.IsSession() && x.sessionId != k {
        assert k in m.sessions - {x.sessionId};
        assert r.sessions[k] == (r.sessions - {x.sessionId})[k];
      }
    } else {
      SyncAllLastWins(st, init, k);
      assert LastSessionSecret(init, k).None?;
    }
  }

  /**
   * Profile merge across a whole list: two session secrets, each the first in the list
   * for a session id not registered before, with the same profile name end up bound to
   * one profile, the one registered under that name.
   */
  lemma SameProfileNameSharesProfile(st: LocalState, ss: seq<LocalSecret>, a: LocalSecret, b: LocalSecret)
    requires a.IsSession() && b.IsSession()
    requires a.sessionId !in st.sessions && b.sessionId !in st.sessions
    requires FirstSessionSecret(ss, a.sessionId) == Some(a) && FirstSessionSecret(ss, b.sessionId) == Some(b)
    requires a.profileName == b.profileName
    ensures var r := SyncAll(st, ss);
            a.sessionId in r.sessions && b.sessionId in r.sessions &&
            r.sessions[a.sessionId].profileId == r.sessions[b.sessionId].profileId &&
            a.profileName in r.profiles.ids && r.profiles.ids[a.profileName] == r.sessions[a.sessionId].profileId
  {
    FirstNameBinds(st, ss, a.sessionId);
    FirstNameBinds(st, ss, b.sessionId);
  }

  /**
   * Two session secrets, each the first in the list for a session id not registered
   * before, with different profile names end up bound to different profiles.
   */
  lemma DifferentProfileNamesSeparateProfiles(st: LocalState, ss: seq<LocalSecret>, a: LocalSecret, b: LocalSecret)
    requires StateValid(st)
    requires a.IsSession() && b.IsSession()
    requires a.sessionId !in st.sessions && b.sessionId !in st.sessions
    requires FirstSessionSecret(ss, a.sessionId) == Some(a) && FirstSessionSecret(ss, b.sessionId) == Some(b)
    requires a.profileName != b.profileName
    ensures var r := SyncAll(st, ss);
            a.sessionId in r.sessions && b.sessionId in r.sessions &&
            r.sessions[a.sessionId].profileId != r.sessions[b.sessionId].profileId
  {
    FirstNameBinds(st, ss, a.sessionId);
    FirstNameBinds(st, ss, b.sessionId);
    SyncAllPreservesValid(st, ss);
  }

  /**
   * The end-to-end scenario: an IAM-user secret `s1` for profile `dev` followed by a
   * role-chained secret `s2` for `dev` whose parent is `s1` yields two sessions bound
   * to the same profile, and `s2` keeps its parent reference.
   */
  lemma EndToEndScenario(st: LocalState)
    requires "s1" !in st.sessions && "s2" !in st.sessions
    ensures var s1 := AwsIamUserSessionSecret("s1", "dev-user", "dev", "AK1", "SK1", "eu-west-1", None);
            var s2 := AwsIamRoleChainedSessionSecret(
                        "s2", "dev-role", "dev", "eu-west-1", "arn:aws:iam::111:role/X", "leapp", "s1");
            var r := SyncAll(st, [s1, s2]);
            "s1" in r.sessions && "s2" in r.sessions &&
            r.sessions["s1"].profileId == r.sessions["s2"].profileId &&
            r.sessions["s2"].AwsIamRoleChainedSession? && r.sessions["s2"].parentSessionId == "s1" &&
            r.sessions["s1"].accessKey == "AK1" && r.sessions["s1"].secretKey == "SK1"
  {
    var s1 := AwsIamUserSessionSecret("s1", "dev-user", "dev", "AK1", "SK1", "eu-west-1", None);
    var s2 := AwsIamRoleChainedSessionSecret(
                "s2", "dev-role", "dev", "eu-west-1", "arn:aws:iam::111:role/X", "leapp", "s1");
    assert [s1, s2][..1] == [s1];
    assert [s1][..0] == [];
    assert FirstSessionSecret([s1, s2], "s1") == Some(s1);
    assert FirstSessionSecret([s1, s2], "s2") == Some(s2);
    SameProfileNameSharesProfile(st, [s1, s2], s1, s2);
  }
}

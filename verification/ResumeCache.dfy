/** The per-provider session cache: which CLI session a (thread, stage, role) key would resume, and what
    the last resume attempt on that key proved. */
module ResumeCache {
  import opened Text

  datatype Verdict = Resumed | Rejected | Unknown

  const RESUME_REJECTED_MARKERS := [
    "no conversation found", "session not found", "no such session", "invalid session", "unable to resume"]

  /** `any(marker in text.lower() for marker in _RESUME_REJECTED_MARKERS)`. */
  predicate NamesRejection(text: string) {
    exists i | 0 <= i < |RESUME_REJECTED_MARKERS| :: Contains(Lower(text), RESUME_REJECTED_MARKERS[i])
  }

  /** A marker is found wherever it stands in the text, in upper or lower case. */
  lemma MarkerIsFound(before: string, marker: string, after: string, i: nat)
    requires i < |RESUME_REJECTED_MARKERS| && Lower(marker) == RESUME_REJECTED_MARKERS[i]
    ensures NamesRejection(before + marker + after)
  {
    LowerConcat(before, marker);
    LowerConcat(before + marker, after);
    var text := Lower(before + marker + after);
    assert text == Lower(before) + Lower(marker) + Lower(after);
    assert text[|before|..|before| + |marker|] == Lower(marker);
    assert OccursAt(text, RESUME_REJECTED_MARKERS[i], |before|);
  }

  lemma LowerConcat(a: string, b: string)
    ensures Lower(a + b) == Lower(a) + Lower(b)
  {
  }

  /** For example, in its usual case: */
  lemma DeadIdIsNamed(before: string, after: string)
    ensures NamesRejection(before + "No conversation found" + after)
  {
    assert Lower("No conversation found") == "no conversation found";
    MarkerIsFound(before, "No conversation found", after, 0);
  }

  /** `classify_resume`; an empty id counts as none. */
  function ClassifyResume(requested: Option<string>, returned: Option<string>, isError: bool, errorText: string)
    : Option<Verdict>
  {
    Classify(requested, returned, isError, NamesRejection(errorText))
  }

  /** The rule itself, given whether the error text names a rejection. */
  function Classify(requested: Option<string>, returned: Option<string>, isError: bool, rejection: bool)
    : (verdict: Option<Verdict>)
    ensures verdict.None? <==> requested in {None, Some("")}
    ensures verdict == Some(Resumed) <==> requested !in {None, Some("")} && !isError && returned == requested
    ensures verdict == Some(Rejected) <==> requested !in {None, Some("")} && isError && rejection
  {
    if requested.None? || requested.value == "" then None
    else if isError && rejection then Some(Rejected)
    else if !isError && returned == requested then Some(Resumed)
    else Some(Unknown)
  }

  /** The two dictionaries as a value. */
  datatype Cache = Cache(ids: map<string, string>, verdicts: map<string, Verdict>) {
    function Record(key: string, verdict: Verdict): Cache {
      Cache(if verdict.Rejected? then ids - {key} else ids, verdicts[key := verdict])
    }

    function CacheId(key: string, id: string, verdict: Option<Verdict>): Cache {
      Cache(ids[key := id], if verdict == Some(Resumed) then verdicts else verdicts - {key})
    }

    function Close(key: string): Cache {
      Cache(ids - {key}, verdicts - {key})
    }

    function Forget(threadId: string): Cache {
      var stale := set key | key in ids && ThreadPrefix(threadId) <= key;
      Cache(ids - stale, verdicts - stale)
    }
  }

  function ThreadPrefix(threadId: string): string {
    threadId + ":"
  }

  function SessionKey(threadId: string, stage: string, role: string): string {
    threadId + ":" + stage + ":" + role
  }

  class SessionCache {
    var sessionIds: map<string, string>
    var resumeStates: map<string, Verdict>

    function View(): Cache
      reads this
    {
      Cache(sessionIds, resumeStates)
    }

    constructor ()
      ensures View() == Cache(map[], map[])
    {
      sessionIds, resumeStates := map[], map[];
    }

    method RecordResumeState(sessionKey: string, resumeState: Verdict)
      modifies this
      ensures View() == old(View()).Record(sessionKey, resumeState)
    {
      resumeStates := resumeStates[sessionKey := resumeState];
      if resumeState == Rejected {
        sessionIds := sessionIds - {sessionKey};
      }
    }

    method CacheSessionId(sessionKey: string, newSessionId: string, resumeState: Option<Verdict>)
      modifies this
      ensures View() == old(View()).CacheId(sessionKey, newSessionId, resumeState)
    {
      sessionIds := sessionIds[sessionKey := newSessionId];
      if resumeState != Some(Resumed) {
        resumeStates := resumeStates - {sessionKey};
      }
    }

    method ForgetThreadSessions(threadId: string)
      modifies this
      ensures View() == old(View()).Forget(threadId)
    {
      var prefix := ThreadPrefix(threadId);
      var stale := set key | key in sessionIds && prefix <= key;
      var left := stale;
      ghost var ids, verdicts := sessionIds, resumeStates;
      while left != {}
        invariant left <= stale
        invariant sessionIds == ids - (stale - left) && resumeStates == verdicts - (stale - left)
        decreases |left|
      {
        var key :| key in left;
        ghost var gone := stale - left;
        assert stale - (left - {key}) == gone + {key};
        assert ids - (gone + {key}) == ids - gone - {key};
        assert verdicts - (gone + {key}) == verdicts - gone - {key};
        sessionIds := sessionIds - {key};
        resumeStates := resumeStates - {key};
        left := left - {key};
      }
      assert stale - left == stale;
    }

    method CloseSession(threadId: string, stage: string, role: string)
      modifies this
      ensures View() == old(View()).Close(SessionKey(threadId, stage, role))
    {
      var sessionKey := SessionKey(threadId, stage, role);
      sessionIds := sessionIds - {sessionKey};
      resumeStates := resumeStates - {sessionKey};
    }
  }

  // ---- keys ----

  /** With colon-free components the key encoding is injective. */
  lemma SessionKeyInjective(t: string, s: string, r: string, t': string, s': string, r': string)
    requires ':' !in t && ':' !in s && ':' !in r && ':' !in t' && ':' !in s' && ':' !in r'
    requires SessionKey(t, s, r) == SessionKey(t', s', r')
    ensures t == t' && s == s' && r == r'
  {
    SplitKey(t, s, r);
    SplitKey(t', s', r');
  }

  lemma SplitKey(t: string, s: string, r: string)
    requires ':' !in t && ':' !in s && ':' !in r
    ensures Split(SessionKey(t, s, r), ':') == [t, s, r]
  {
    assert SessionKey(t, s, r) == t + [':'] + (s + [':'] + r);
    SplitAtSeparator(t, s + [':'] + r, ':');
    SplitAtSeparator(s, r, ':');
    SplitPlain(r, ':');
  }

  /** The prefix test finds exactly the thread's own keys. */
  lemma PrefixIsThread(threadId: string, t: string, s: string, r: string)
    requires ':' !in threadId && ':' !in t
    ensures ThreadPrefix(threadId) <= SessionKey(t, s, r) <==> t == threadId
  {
    var key, prefix := SessionKey(t, s, r), ThreadPrefix(threadId);
    assert key == t + (":" + s + ":" + r);
    assert key[..|t|] == t && key[|t|] == ':';
    assert prefix[..|threadId|] == threadId && prefix[|threadId|] == ':';
    if t == threadId {
      assert key == prefix + (s + ":" + r);
    }
  }

  /** Eviction removes every cached id of the thread and nothing of any other thread; the verdicts of the
      thread that stay are those of keys that had no cached id. */
  lemma EvictionFrame(cache: Cache, threadId: string, t: string, s: string, r: string)
    requires ':' !in threadId && ':' !in t
    ensures var after, key := cache.Forget(threadId), SessionKey(t, s, r);
            if t == threadId then
              && key !in after.ids
              && (key in after.verdicts <==> key in cache.verdicts && key !in cache.ids)
            else
              && (key in after.ids <==> key in cache.ids) && (key in cache.ids ==> after.ids[key] == cache.ids[key])
              && (key in after.verdicts <==> key in cache.verdicts)
              && (key in cache.verdicts ==> after.verdicts[key] == cache.verdicts[key])
  {
    PrefixIsThread(threadId, t, s, r);
  }
}

/** `InboxRepository`: the owner of the per-session inboxes in memory and of their files.

    Each operation is one stretch under the session's lock: the list surgery is done in place on the
    session's `MutableInbox`, then the whole inbox is written before the call returns. The surgery is
    proved to be the operation of the same name in `Inbox.dfy`; the repository to apply it to its own
    session, to leave every other session alone, and to write the file exactly when it commits. */
module InboxRepository {
  import opened Prelude
  import I = Inbox
  import R = InboxRuns

  /** The mutable inbox of one session. */
  class MutableInbox {
    const sessionId: string
    var revision: nat
    var nextSequence: int
    var nextTurn: seq<I.Item>
    var nextStep: seq<I.Item>

    constructor (sessionId: string, s: I.State)
      ensures this.sessionId == sessionId && View() == s
    {
      this.sessionId := sessionId;
      revision, nextSequence, nextTurn, nextStep := s.revision, s.nextSequence, s.nextTurn, s.nextStep;
    }

    function View(): I.State
      reads this
    {
      I.State(revision, nextSequence, nextTurn, nextStep)
    }

    /** `items.pop(index)` on one of the two lists. */
    method Pop(at: I.Location) returns (item: I.Item)
      requires I.Within(View(), at)
      modifies this
      ensures item == I.ItemAt(old(View()), at) && View() == I.PopAt(old(View()), at)
    {
      if at.target == I.NextTurn {
        item := nextTurn[at.index];
        nextTurn := nextTurn[..at.index] + nextTurn[at.index + 1..];
      } else {
        item := nextStep[at.index];
        nextStep := nextStep[..at.index] + nextStep[at.index + 1..];
      }
    }

    method Admit(item: I.Item, target: I.Target, seen: bool, capacity: nat) returns (r: I.Admission)
      modifies this
      ensures (View(), r) == I.Admit(old(View()), item, target, seen, capacity)
    {
      var existing := I.Find(View(), item.requestId);
      if existing.Some? {
        return I.Duplicate(existing.value.index + 1);
      }
      if seen {
        return I.Seen;
      }
      if |nextTurn| + |nextStep| >= capacity {
        return I.Full;
      }
      var queued := item;
      if queued.sequence <= 0 {
        queued := queued.(sequence := nextSequence);
      }
      nextSequence := I.Max(nextSequence, queued.sequence + 1);
      if target == I.NextTurn {
        nextTurn := nextTurn + [queued];
      } else {
        nextStep := nextStep + [queued];
      }
      revision := revision + 1;
      assert View() == I.Enqueue(old(View()), item, target);
      if !I.Validates(View()) {
        return I.Invalid;
      }
      return I.Admitted(|nextTurn| + |nextStep|);
    }

    /** Locates every id first, then pops by falling index, then validates; the index fault of a
        repeated id strikes after part of the pops. */
    method Claim(ids: seq<string>) returns (r: I.Claim)
      modifies this
      ensures (View(), r) == I.ClaimItems(old(View()), ids)
    {
      if ids == [] {
        return I.Nothing;
      }
      var located := LocateAll(ids);
      if located.None? {
        return I.Nothing;
      }
      var claimed := I.Fetch(View(), located.value);
      var popped := PopAll(I.SortDescending(located.value));
      r := Settle(popped, claimed);
    }

    /** After the pops: the revision, the validation, the result. */
    method Settle(popped: bool, claimed: seq<I.Item>) returns (r: I.Claim)
      modifies this`revision
      ensures (View(), r) == I.AfterPops(old(View()), popped, claimed)
    {
      if !popped {
        return I.IndexFault;
      }
      revision := revision + 1;
      if !I.Validates(View()) {
        return I.Inconsistent;
      }
      return I.Claimed(claimed);
    }

    method LocateAll(ids: seq<string>) returns (r: Option<seq<I.Location>>)
      ensures r == I.Locate(View(), ids)
    {
      var places: seq<I.Location> := [];
      for k := 0 to |ids|
        invariant I.Locate(View(), ids[..k]) == Some(places)
      {
        assert ids[..k + 1][..k] == ids[..k];
        var hit := I.Find(View(), ids[k]);
        if hit.None? {
          I.LocateFinds(View(), ids);
          return None;
        }
        places := places + [hit.value];
      }
      assert ids[..|ids|] == ids;
      return Some(places);
    }

    method PopAll(places: seq<I.Location>) returns (ok: bool)
      modifies this
      ensures (View(), ok) == I.PopAll(old(View()), places)
    {
      for k := 0 to |places|
        invariant I.PopAll(View(), places[k..]) == I.PopAll(old(View()), places)
      {
        assert places[k..][1..] == places[k + 1..];
        if !(places[k].index < if places[k].target == I.NextTurn then |nextTurn| else |nextStep|) {
          return false;
        }
        var _ := Pop(places[k]);
      }
      return true;
    }

    method Remove(id: string) returns (r: Option<I.Item>)
      modifies this
      ensures (View(), r) == I.RemoveItem(old(View()), id)
    {
      var hit := I.Find(View(), id);
      if hit.None? {
        return None;
      }
      var item := Pop(hit.value);
      revision := revision + 1;
      return Some(item);
    }

    method Edit(id: string, content: string, attachments: seq<string>) returns (r: Option<I.Item>)
      modifies this
      ensures (View(), r) == I.EditItem(old(View()), id, content, attachments)
    {
      var hit := I.Find(View(), id);
      if hit.None? {
        return None;
      }
      var at := hit.value;
      var edited := I.ItemAt(View(), at).(content := content, attachments := attachments, messages := []);
      if at.target == I.NextTurn {
        nextTurn := nextTurn[at.index := edited];
      } else {
        nextStep := nextStep[at.index := edited];
      }
      revision := revision + 1;
      return Some(edited);
    }

    method Promote(id: string) returns (r: I.Promotion)
      modifies this
      ensures (View(), r) == I.PromoteItem(old(View()), id)
    {
      var hit := I.Find(View(), id);
      if hit.None? {
        return I.Missing;
      }
      if hit.value.target == I.NextStep {
        return I.AlreadySteering(I.ItemAt(View(), hit.value));
      }
      var item := Pop(hit.value);
      item := item.(source := I.User);
      nextStep := I.SortBySequence(nextStep + [item]);
      revision := revision + 1;
      assert View() == I.PromoteItem(old(View()), id).0;
      if !I.Validates(View()) {
        return I.Rejected;
      }
      return I.Promoted(item);
    }
  }

  /** All inboxes: in memory by session, and the files. A method checks its session's inbox out as a
      `MutableInbox`, works on it in place, and puts it back. */
  class Repository {
    const capacity: nat
    var states: map<string, I.State>
    var disk: map<string, R.RawInbox>

    constructor (capacity: nat, disk: map<string, R.RawInbox>)
      ensures states == map[] && this.disk == disk && this.capacity == capacity
    {
      this.capacity, this.disk, states := capacity, disk, map[];
    }

    /** The inbox of a session; a session without one has an empty inbox. */
    function StateOf(sid: string): I.State
      reads this
    {
      if sid in states then states[sid] else I.Empty
    }

    /** Writes the whole inbox; the file is replaced in one step. */
    method Commit(sid: string)
      requires sid in states
      modifies this`disk
      ensures disk == old(disk)[sid := R.ToJson(sid, states[sid])]
    {
      disk := disk[sid := R.ToJson(sid, states[sid])];
    }

    method Admit(item: I.Item, target: I.Target, sessionExists: bool, seen: bool) returns (r: I.Admission)
      modifies this
      ensures !sessionExists ==> r == I.NoSession && states == old(states) && disk == old(disk)
      ensures sessionExists ==>
        var sid := item.sessionId;
        && sid in states
        && (states[sid], r) == I.Admit(old(StateOf(sid)), item, target, seen, capacity)
        && states == old(states)[sid := states[sid]]
        && disk == if r.Admitted? then old(disk)[sid := R.ToJson(sid, states[sid])] else old(disk)
    {
      if !sessionExists {
        return I.NoSession;
      }
      var sid := item.sessionId;
      var m := new MutableInbox(sid, StateOf(sid));
      r := m.Admit(item, target, seen, capacity);
      states := states[sid := m.View()];
      if r.Admitted? {
        Commit(sid);
      }
    }

    method Claim(sid: string, ids: seq<string>) returns (r: I.Claim)
      modifies this
      ensures ids == [] ==> r == I.Nothing && states == old(states) && disk == old(disk)
      ensures ids != [] ==>
        && sid in states
        && (states[sid], r) == I.ClaimItems(old(StateOf(sid)), ids)
        && states == old(states)[sid := states[sid]]
        && disk == if r.Claimed? then old(disk)[sid := R.ToJson(sid, states[sid])] else old(disk)
    {
      if ids == [] {
        return I.Nothing;
      }
      var m := new MutableInbox(sid, StateOf(sid));
      r := m.Claim(ids);
      states := states[sid := m.View()];
      if r.Claimed? {
        Commit(sid);
      }
    }

    method Remove(sid: string, id: string) returns (r: Option<I.Item>)
      modifies this
      ensures sid in states && (states[sid], r) == I.RemoveItem(old(StateOf(sid)), id)
      ensures states == old(states)[sid := states[sid]]
      ensures disk == if r.Some? then old(disk)[sid := R.ToJson(sid, states[sid])] else old(disk)
    {
      var m := new MutableInbox(sid, StateOf(sid));
      r := m.Remove(id);
      states := states[sid := m.View()];
      if r.Some? {
        Commit(sid);
      }
    }

    method Edit(sid: string, id: string, content: string, attachments: seq<string>) returns (r: Option<I.Item>)
      modifies this
      ensures sid in states && (states[sid], r) == I.EditItem(old(StateOf(sid)), id, content, attachments)
      ensures states == old(states)[sid := states[sid]]
      ensures disk == if r.Some? then old(disk)[sid := R.ToJson(sid, states[sid])] else old(disk)
    {
      var m := new MutableInbox(sid, StateOf(sid));
      r := m.Edit(id, content, attachments);
      states := states[sid := m.View()];
      if r.Some? {
        Commit(sid);
      }
    }

    method Promote(sid: string, id: string) returns (r: I.Promotion)
      modifies this
      ensures sid in states && (states[sid], r) == I.PromoteItem(old(StateOf(sid)), id)
      ensures states == old(states)[sid := states[sid]]
      ensures disk == if r.Promoted? then old(disk)[sid := R.ToJson(sid, states[sid])] else old(disk)
    {
      var m := new MutableInbox(sid, StateOf(sid));
      r := m.Promote(id);
      states := states[sid := m.View()];
      if r.Promoted? {
        Commit(sid);
      }
    }

    method DeleteSession(sid: string)
      modifies this
      ensures states == old(states) - {sid} && disk == old(disk) - {sid}
    {
      states := states - {sid};
      disk := disk - {sid};
    }

    /** Reads the file in the directory `dir` at start-up. The inbox is kept under the session id that
        the file names; a file in an older form is written back in the present one, to the directory of
        that session. An unreadable file is set aside, and so is one that cannot be written back because
        its session id is not a path, although its inbox is then kept in memory. */
    method LoadSession(dir: string)
      requires dir in disk
      modifies this
      ensures var raw := old(disk[dir]);
        match R.FromJson(raw)
        case Ok(s) =>
          && states == old(states)[raw.sessionId := s]
          && disk == (if !IsOld(raw) then old(disk)
                      else if IsPath(raw.sessionId) then old(disk)[raw.sessionId := R.ToJson(raw.sessionId, s)]
                      else old(disk) - {dir})
        case Err(_) => states == old(states) && disk == old(disk) - {dir}
    {
      var raw := disk[dir];
      var parsed := R.FromJson(raw);
      if parsed.Err? {
        disk := disk - {dir};
        return;
      }
      states := states[raw.sessionId := parsed.value];
      var stale := HasRunTargets(raw.nextTurn + raw.nextStep);
      if raw.schemaVersion != 3 || raw.inflight || stale {
        if IsPath(raw.sessionId) {
          Commit(raw.sessionId);
        } else {
          disk := disk - {dir};
        }
      }
    }

    method HasRunTargets(items: seq<R.RawItem>) returns (found: bool)
      ensures found <==> exists x :: x in items && x.hasRunTarget
    {
      for k := 0 to |items|
        invariant forall j :: 0 <= j < k ==> !items[j].hasRunTarget
      {
        if items[k].hasRunTarget {
          return true;
        }
      }
      return false;
    }
  }

  /** The file is not in the present form. */
  predicate IsOld(raw: R.RawInbox) {
    raw.schemaVersion != 3 || raw.inflight || exists x :: x in raw.nextTurn + raw.nextStep && x.hasRunTarget
  }

  /** The session id can be a directory name. */
  predicate IsPath(sid: string) {
    sid != "" && (forall c :: c in sid ==> c != '/' && c != '\\' && c != ':')
    && forall k :: 0 <= k < |sid| - 1 ==> !(sid[k] == '.' && sid[k + 1] == '.')
  }

  /** A file that the repository wrote is never rewritten by the next start, and holds what was written
      exactly if that was valid and had no empty agent id or history id. */
  lemma WrittenIsCurrent(sid: string, s: I.State)
    ensures !IsOld(R.ToJson(sid, s)) && R.ToJson(sid, s).sessionId == sid
    ensures R.FromJson(R.ToJson(sid, s)) == Ok(s) <==>
      I.Validates(s) && forall x :: I.Holds(s, x) ==> R.Persistable(x)
  {
    R.ReloadsIffPersistable(sid, s);
  }
}

/**
 Redis clean-up command by command: SMEMBERS, one EXISTS per member, then SREM, with the
 commands of registrations, refreshes and other clean-ups, and the clock, running in between.
 */
module RedisCleanup {
  import opened Domain
  import opened Keys
  import opened Redis
  import RC = RedisCache

  /** How far one RemoveInactiveOrders call has come. */
  datatype Call =
    | Unstarted
    | Checking(todo: set<string>, dead: set<string>)
    | Finished

  datatype State = State(keys: Keyspace, now: Time, call: Call)

  datatype Action =
    | List                            // SMEMBERS
    | Check(member: string)           // EXISTS of one heartbeat
    | Remove                          // SREM of the dead, if any
    | Tick(later: Time)
    | Join(id: Id)                    // SADD by a registration or pre-warm
    | Beat(id: Id, ttl: Time)         // SET of a heartbeat by a registration, pre-warm or refresh
    | Drop(members: set<string>)      // SREM by another pod's clean-up

  function Tracked(s: State): set<string> {
    RC.Tracked(s.keys, s.now)
  }

  predicate Enabled(s: State, a: Action) {
    match a
    case List => s.call.Unstarted?
    case Check(m) => s.call.Checking? && m in s.call.todo
    case Remove => s.call.Checking? && s.call.todo == {}
    case Tick(later) => s.now <= later
    case _ => true
  }

  function Apply(s: State, a: Action): State
    requires Enabled(s, a)
  {
    match a
    case List =>
      var members := SMembers(s.keys, Render(ActiveOrders), s.now);
      s.(call := if members.None? || members.value == {} then Finished else Checking(RC.Parseable(members.value), {}))
    case Check(m) =>
      s.(call := Checking(s.call.todo - {m}, if RC.IsDead(s.keys, m, s.now) then s.call.dead + {m} else s.call.dead))
    case Remove =>
      State(if s.call.dead == {} then s.keys else SRem(s.keys, Render(ActiveOrders), s.call.dead, s.now), s.now, Finished)
    case Tick(later) => s.(now := later)
    case Join(id) => s.(keys := SAdd(s.keys, Render(ActiveOrders), FormatInt(id), s.now))
    case Beat(id, ttl) => s.(keys := RC.Beat(s.keys, id, ttl, s.now))
    case Drop(members) => s.(keys := SRem(s.keys, Render(ActiveOrders), members, s.now))
  }

  /** The states that a run of actions goes through. */
  predicate Run(states: seq<State>, actions: seq<Action>) {
    && |states| == |actions| + 1
    && states[0].call.Unstarted?
    && forall k :: 0 <= k < |actions| ==> Enabled(states[k], actions[k]) && states[k + 1] == Apply(states[k], actions[k])
  }

  /** The call's own steps never add a member, and only Remove takes any away. */
  lemma CallNeverAdds(s: State, a: Action)
    requires Enabled(s, a) && (a.List? || a.Check? || a.Remove?)
    ensures Tracked(Apply(s, a)) == if a.Remove? then Tracked(s) - s.call.dead else Tracked(s)
  {
  }

  /** What the commands of others do to the tracking set. */
  lemma OthersChangeTracked(s: State, a: Action)
    requires Enabled(s, a) && SMembers(s.keys, Render(ActiveOrders), s.now).Some?
    ensures a.Join? ==> Tracked(Apply(s, a)) == Tracked(s) + {FormatInt(a.id)}
    ensures a.Drop? ==> Tracked(Apply(s, a)) == Tracked(s) - a.members
    ensures a.Beat? ==> Tracked(Apply(s, a)) == Tracked(s)
  {
    if a.Beat? {
      RenderInjectiveOn(ActiveOrders, Heartbeat(a.id));
    }
  }

  /** The call saw this member's heartbeat missing at step j. */
  predicate SeenDeadAt(states: seq<State>, actions: seq<Action>, j: int, m: string)
    requires |states| == |actions| + 1
  {
    0 <= j < |actions| && actions[j] == Check(m) && RC.IsDead(states[j].keys, m, states[j].now)
  }

  lemma {:induction false} DeadWereSeen(states: seq<State>, actions: seq<Action>, k: nat, m: string) returns (j: nat)
    requires Run(states, actions) && k < |states| && states[k].call.Checking? && m in states[k].call.dead
    ensures j < k && SeenDeadAt(states, actions, j, m)
    decreases k
  {
    var a := actions[k - 1];
    assert states[k] == Apply(states[k - 1], a);
    if a == Check(m) && RC.IsDead(states[k - 1].keys, m, states[k - 1].now) {
      j := k - 1;
    } else {
      j := DeadWereSeen(states, actions, k - 1, m);
    }
  }

  /** Once seen dead, a member stays on the call's list, whatever happens to its heartbeat. */
  lemma {:induction false} SeenStaysDead(states: seq<State>, actions: seq<Action>, j: nat, k: nat, m: string)
    requires Run(states, actions) && j < k < |states| && SeenDeadAt(states, actions, j, m)
    ensures !states[k].call.Unstarted? && (states[k].call.Checking? ==> m in states[k].call.dead)
    decreases k
  {
    assert states[k] == Apply(states[k - 1], actions[k - 1]);
    if j < k - 1 {
      SeenStaysDead(states, actions, j, k - 1, m);
    }
  }

  /** One call removes a member if and only if its heartbeat was missing when that call looked. */
  lemma {:induction false} RemovesExactlyTheSeenDead(states: seq<State>, actions: seq<Action>, k: nat, m: string)
    requires Run(states, actions) && k < |actions| && actions[k].Remove? && m in Tracked(states[k])
    ensures m !in Tracked(states[k + 1]) <==> exists j :: j < k && SeenDeadAt(states, actions, j, m)
  {
    assert states[k + 1] == Apply(states[k], Remove);
    CallNeverAdds(states[k], Remove);
    if m in states[k].call.dead {
      var j := DeadWereSeen(states, actions, k, m);
    }
    if j :| j < k && SeenDeadAt(states, actions, j, m) {
      SeenStaysDead(states, actions, j, k, m);
    }
  }

  lemma DeadStaysDead(s: State, a: Action, m: string)
    requires Enabled(s, a) && RC.IsDead(s.keys, m, s.now)
    requires !(a.Beat? && a.id == ParseInt(m).value)
    ensures RC.IsDead(Apply(s, a).keys, m, Apply(s, a).now)
  {
    var id := ParseInt(m).value;
    RenderInjectiveOn(Heartbeat(id), ActiveOrders);
    if a.Beat? {
      RenderInjectiveOn(Heartbeat(id), Heartbeat(a.id));
    }
  }

  lemma RenderInjectiveOn(a: Key, b: Key)
    ensures Render(a) == Render(b) <==> a == b
  {
    if Render(a) == Render(b) {
      RenderInjective(a, b);
    }
  }

  lemma {:induction false} DeadUntilBeaten(states: seq<State>, actions: seq<Action>, j: nat, k: nat, m: string)
    requires Run(states, actions) && j <= k < |states| && RC.IsDead(states[j].keys, m, states[j].now)
    requires forall b :: j <= b < k && actions[b].Beat? ==> actions[b].id != ParseInt(m).value
    ensures RC.IsDead(states[k].keys, m, states[k].now)
    decreases k
  {
    if j < k {
      DeadUntilBeaten(states, actions, j, k - 1, m);
      DeadStaysDead(states[k - 1], actions[k - 1], m);
    }
  }

  /**
   Exactly when a watched order is lost: a member whose heartbeat is alive at the SREM is removed
   if and only if a registration, pre-warm or refresh wrote that heartbeat after the call's
   EXISTS had found it missing.
   */
  lemma {:induction false} LiveMemberLostIffRaced(states: seq<State>, actions: seq<Action>, k: nat, m: string)
    requires Run(states, actions) && k < |actions| && actions[k].Remove? && m in Tracked(states[k])
    requires !RC.IsDead(states[k].keys, m, states[k].now)
    ensures m !in Tracked(states[k + 1]) <==> exists j, b ::
      j < b < k && SeenDeadAt(states, actions, j, m) && actions[b].Beat? && Some(actions[b].id) == ParseInt(m)
  {
    RemovesExactlyTheSeenDead(states, actions, k, m);
    if m !in Tracked(states[k + 1]) {
      var j :| j < k && SeenDeadAt(states, actions, j, m);
      if forall b :: j <= b < k && actions[b].Beat? ==> actions[b].id != ParseInt(m).value {
        DeadUntilBeaten(states, actions, j, k, m);
      }
    }
  }

  /** That race exists: SADD, then a whole clean-up up to its EXISTS, then SET heartbeat, then SREM. */
  lemma RegistrationCanBeLost() returns (states: seq<State>, actions: seq<Action>)
    ensures Run(states, actions)
    ensures actions == [Join(7), List, Check(FormatInt(7)), Beat(7, 90), Remove]
    ensures FormatInt(7) !in Tracked(states[5]) && !RC.IsDead(states[5].keys, FormatInt(7), states[5].now)
  {
    var active, m := Render(ActiveOrders), FormatInt(7);
    RenderInjectiveOn(ActiveOrders, Heartbeat(7));
    ParseInverse(7);
    var joined: Keyspace := map[active := Entry(Members({m}), None)];
    var beaten := RC.Beat(joined, 7, 90, 0);
    assert RC.Parseable({m}) == {m};
    assert {m} - {m} == {};
    var s0 := State(map[], 0, Unstarted);
    var s1 := State(joined, 0, Unstarted);
    var s2 := State(joined, 0, Checking({m}, {}));
    var s3 := State(joined, 0, Checking({}, {m}));
    var s4 := State(beaten, 0, Checking({}, {m}));
    var s5 := State(beaten - {active}, 0, Finished);
    states := [s0, s1, s2, s3, s4, s5];
    actions := [Join(7), List, Check(m), Beat(7, 90), Remove];
    assert Apply(s0, Join(7)) == s1;
    assert Apply(s1, List) == s2;
    assert RC.IsDead(joined, m, 0);
    assert s2.call.dead + {m} == {m};
    assert Apply(s2, Check(m)) == s3;
    assert Apply(s3, Beat(7, 90)) == s4;
    assert Apply(s4, Remove) == s5;
  }

  /** Where a call that started in `first` and ran alone can be. */
  ghost predicate Alone(first: State, s: State) {
    && s.now == first.now
    && (!s.call.Finished? ==> s.keys == first.keys)
    && (s.call.Checking? ==>
          && SMembers(first.keys, Render(ActiveOrders), first.now).Some?
          && s.call.todo <= RC.Parseable(Tracked(first))
          && s.call.dead == RC.DeadMembers(first.keys, Tracked(first), first.now) - s.call.todo)
    && (s.call.Finished? ==> s.keys == RC.RemoveInactive(first.keys, first.now))
  }

  lemma AloneList(first: State, s: State)
    requires Alone(first, s) && Enabled(s, List)
    ensures Alone(first, Apply(s, List))
  {
  }

  lemma AloneCheck(first: State, s: State, m: string)
    requires Alone(first, s) && Enabled(s, Check(m))
    ensures Alone(first, Apply(s, Check(m)))
  {
  }

  lemma AloneRemove(first: State, s: State)
    requires Alone(first, s) && Enabled(s, Remove)
    ensures Alone(first, Apply(s, Remove))
  {
    var dead := RC.DeadMembers(first.keys, Tracked(first), first.now);
    assert dead - {} == dead;
  }

  lemma {:induction false} AloneInvariant(states: seq<State>, actions: seq<Action>, k: nat)
    requires Run(states, actions) && k < |states|
    requires forall i :: 0 <= i < |actions| ==> actions[i].List? || actions[i].Check? || actions[i].Remove?
    ensures Alone(states[0], states[k])
    decreases k
  {
    if k > 0 {
      AloneInvariant(states, actions, k - 1);
      assert states[k] == Apply(states[k - 1], actions[k - 1]);
      match actions[k - 1]
      case List => AloneList(states[0], states[k - 1]);
      case Check(m) => AloneCheck(states[0], states[k - 1], m);
      case Remove => AloneRemove(states[0], states[k - 1]);
    }
  }

  /** Run alone, in any order of its EXISTS commands, the call is the sequential clean-up. */
  lemma AloneIsSequential(states: seq<State>, actions: seq<Action>)
    requires Run(states, actions) && states[|actions|].call.Finished?
    requires forall i :: 0 <= i < |actions| ==> actions[i].List? || actions[i].Check? || actions[i].Remove?
    ensures states[|actions|].keys == RC.RemoveInactive(states[0].keys, states[0].now)
    ensures Tracked(states[|actions|])
      == Tracked(states[0]) - RC.DeadMembers(states[0].keys, Tracked(states[0]), states[0].now)
  {
    AloneInvariant(states, actions, |actions|);
  }
}

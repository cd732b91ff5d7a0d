/** The Redis commands the service issues, each one atomic step on a flat expiring keyspace. */
module Redis {
  import opened Domain

  /** Stored strings; the JSON and RFC 3339 encodings are kept as the values they encode. */
  datatype Value =
    | Text(text: string)
    | Json(location: CourierLocation)
    | Stamp(at: Time)
    | Members(members: set<string>)

  /** A key dies strictly after its deadline; without one it lives until deleted. */
  datatype Entry = Entry(value: Value, deadline: Option<Time>) {
    predicate Alive(now: Time) {
      deadline.None? || now <= deadline.value
    }
  }

  type Keyspace = map<string, Entry>

  /** What any command can see under a key; a dead entry is the same as none. */
  function Lookup(ks: Keyspace, key: string, now: Time): Option<Entry> {
    if key in ks && ks[key].Alive(now) then Some(ks[key]) else None
  }

  datatype Reply = Nil | Found(value: Value) | WrongType

  function Get(ks: Keyspace, key: string, now: Time): Reply {
    match Lookup(ks, key, now)
    case None => Nil
    case Some(e) => if e.value.Members? then WrongType else Found(e.value)
  }

  /** SET overwrites a key of any type; a non-positive TTL sets no deadline. */
  function Deadline(now: Time, ttl: Time): Option<Time> {
    Only(ttl > 0, now + ttl)
  }

  function Set(ks: Keyspace, key: string, value: Value, ttl: Time, now: Time): Keyspace {
    ks[key := Entry(value, Deadline(now, ttl))]
  }

  function SetNX(ks: Keyspace, key: string, value: Value, ttl: Time, now: Time): (Keyspace, bool) {
    if Lookup(ks, key, now).Some? then (ks, false) else (Set(ks, key, value, ttl, now), true)
  }

  predicate Exists(ks: Keyspace, key: string, now: Time) {
    Lookup(ks, key, now).Some?
  }

  /** None stands for the WRONGTYPE error. */
  function SMembers(ks: Keyspace, key: string, now: Time): Option<set<string>> {
    match Lookup(ks, key, now)
    case None => Some({})
    case Some(e) => if e.value.Members? then Some(e.value.members) else None
  }

  function SAdd(ks: Keyspace, key: string, member: string, now: Time): Keyspace {
    match Lookup(ks, key, now)
    case None => ks[key := Entry(Members({member}), None)]
    case Some(e) =>
      if e.value.Members? then ks[key := Entry(Members(e.value.members + {member}), e.deadline)] else ks
  }

  /** A set that loses its last member is deleted. */
  function SRem(ks: Keyspace, key: string, members: set<string>, now: Time): Keyspace {
    match Lookup(ks, key, now)
    case None => ks
    case Some(e) =>
      if !e.value.Members? then ks
      else if e.value.members <= members then ks - {key}
      else ks[key := Entry(Members(e.value.members - members), e.deadline)]
  }

  /** The renewal script: GET, compare, PEXPIRE; a non-positive TTL deletes the key. */
  function EvalRenew(ks: Keyspace, key: string, instance: string, ttl: Time, now: Time): (Keyspace, Option<bool>) {
    match Get(ks, key, now)
    case WrongType => (ks, None)
    case Nil => (ks, Some(false))
    case Found(v) =>
      if v != Text(instance) then (ks, Some(false))
      else if ttl <= 0 then (ks - {key}, Some(true))
      else (ks[key := Entry(v, Some(now + ttl))], Some(true))
  }

  /** The release script: GET, compare, DEL. */
  function EvalRelease(ks: Keyspace, key: string, instance: string, now: Time): (Keyspace, bool) {
    match Get(ks, key, now)
    case WrongType => (ks, false)
    case Nil => (ks, true)
    case Found(v) => (if v == Text(instance) then ks - {key} else ks, true)
  }
}

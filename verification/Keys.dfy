/** Decimal ids and the layout of the flat Redis keyspace. */
module Keys {
  import opened Domain

  /** Decimal digits of a natural number, most significant first, without leading zeros. */
  function Digits(n: nat): (s: string)
    ensures |s| > 0 && forall i :: 0 <= i < |s| ==> '0' <= s[i] <= '9'
  {
    var last := [('0' as int + n % 10) as char];
    if n < 10 then last else Digits(n / 10) + last
  }

  function FormatInt(n: Id): string {
    if n < 0 then "-" + Digits(-(n as int)) else Digits(n)
  }

  function ParseDigits(s: string): Option<nat>
  {
    if |s| == 0 then None
    else
      var c := s[|s| - 1];
      if !('0' <= c <= '9') then None
      else
        var digit := c as int - '0' as int;
        if |s| == 1 then Some(digit)
        else match ParseDigits(s[..|s| - 1])
          case None => None
          case Some(high) => Some(10 * high + digit)
  }

  /** Base 10, 64 bits: an optional sign, at least one digit, nothing else, and no overflow. */
  function ParseInt(s: string): Option<Id> {
    if |s| == 0 then None
    else
      var negative := s[0] == '-';
      var digits := if negative || s[0] == '+' then s[1..] else s;
      match ParseDigits(digits)
      case None => None
      case Some(magnitude) =>
        if negative then
          if magnitude > 0x8000_0000_0000_0000 then None else Some(-(magnitude as int))
        else if magnitude >= 0x8000_0000_0000_0000 then None else Some(magnitude)
  }

  lemma {:induction false} ParseDigitsInverse(n: nat)
    ensures ParseDigits(Digits(n)) == Some(n)
  {
    if n >= 10 {
      ParseDigitsInverse(n / 10);
      assert Digits(n)[..|Digits(n)| - 1] == Digits(n / 10);
    }
  }

  /** Every 64-bit id survives printing and parsing. */
  lemma {:induction false} ParseInverse(n: Id)
    ensures ParseInt(FormatInt(n)) == Some(n)
  {
    if n < 0 {
      ParseDigitsInverse(-(n as int));
      assert FormatInt(n)[1..] == Digits(-(n as int));
    } else {
      ParseDigitsInverse(n);
    }
  }

  lemma FormatInjective(a: Id, b: Id)
    requires FormatInt(a) == FormatInt(b)
    ensures a == b
  {
    ParseInverse(a);
    ParseInverse(b);
  }

  /** Everything the service ever names in Redis. */
  datatype Key =
    | Location(id: Id)
    | Courier(id: Id)
    | ActiveOrders
    | Heartbeat(id: Id)
    | LastSync
    | PreWarmed
    | LeaderLock

  /** The string under which a key is stored. */
  function Render(k: Key): string {
    match k
    case Location(id) => "order:" + FormatInt(id) + ":location"
    case Courier(id) => "order:" + FormatInt(id) + ":courier_id"
    case ActiveOrders => "tracking:active_orders"
    case Heartbeat(id) => "tracking:order:" + FormatInt(id) + ":heartbeat"
    case LastSync => "courier_poller:last_sync"
    case PreWarmed => "courier_poller:prewarmed"
    case LeaderLock => "courier_poller:leader"
  }

  /** A position at which keys of different kinds with the same first letter differ. */
  function Mark(k: Key): nat {
    match k
    case Location(_) => |Render(k)| - 1
    case Courier(_) => |Render(k)| - 1
    case ActiveOrders => 9
    case Heartbeat(_) => 9
    case LastSync => 16
    case PreWarmed => 16
    case LeaderLock => 16
  }

  /** First letter and marked letter of a rendered key tell its kind. */
  lemma RenderShape(k: Key)
    ensures Mark(k) < |Render(k)|
    ensures Render(k)[0] == (if k.Location? || k.Courier? then 'o' else if k.ActiveOrders? || k.Heartbeat? then 't' else 'c')
    ensures Render(k)[Mark(k)] ==
      match k
      case Location(_) => 'n'
      case Courier(_) => 'd'
      case ActiveOrders => 'a'
      case Heartbeat(_) => 'o'
      case LastSync => 'a'
      case PreWarmed => 'r'
      case LeaderLock => 'e'
  {
  }

  lemma MiddleUnique(prefix: string, a: string, b: string, suffix: string)
    requires prefix + a + suffix == prefix + b + suffix
    ensures a == b
  {
    var s, t := prefix + a + suffix, prefix + b + suffix;
    assert |s| == |t|;
    assert a == s[|prefix|..|prefix| + |a|];
    assert b == t[|prefix|..|prefix| + |b|];
  }

  /** No template renders two ids alike, and no two templates or fixed keys ever collide. */
  lemma RenderInjective(a: Key, b: Key)
    requires Render(a) == Render(b)
    ensures a == b
  {
    RenderShape(a);
    RenderShape(b);
    match a
    case Location(id) =>
      MiddleUnique("order:", FormatInt(id), FormatInt(b.id), ":location");
      FormatInjective(id, b.id);
    case Courier(id) =>
      MiddleUnique("order:", FormatInt(id), FormatInt(b.id), ":courier_id");
      FormatInjective(id, b.id);
    case Heartbeat(id) =>
      MiddleUnique("tracking:order:", FormatInt(id), FormatInt(b.id), ":heartbeat");
      FormatInjective(id, b.id);
    case ActiveOrders =>
    case LastSync =>
    case PreWarmed =>
    case LeaderLock =>
  }

  lemma RenderDistinct()
    ensures forall a: Key, b: Key {:trigger Render(a), Render(b)} :: Render(a) == Render(b) ==> a == b
  {
    forall a: Key, b: Key | Render(a) == Render(b)
      ensures a == b
    {
      RenderInjective(a, b);
    }
  }

  /** Exactly the 64-bit range parses; anything larger in magnitude is an error. */
  lemma ParseRange(n: nat)
    ensures ParseInt(Digits(n)) == if n < 0x8000_0000_0000_0000 then Some(n) else None
    ensures ParseInt("-" + Digits(n)) == if n <= 0x8000_0000_0000_0000 then Some(-(n as int)) else None
  {
    ParseDigitsInverse(n);
    assert ("-" + Digits(n))[1..] == Digits(n);
  }

  lemma PrintedSample()
    ensures FormatInt(407) == "407" && FormatInt(-12) == "-12"
  {
    assert Digits(4) == "4" && Digits(40) == "40";
    assert Digits(1) == "1";
  }

  /** The layout on a sample, digits and sign included. */
  lemma Layout()
    ensures Render(Location(407)) == "order:407:location"
    ensures Render(Courier(-12)) == "order:-12:courier_id"
  {
    PrintedSample();
  }

  lemma HeartbeatLayout()
    ensures Render(Heartbeat(407)) == "tracking:order:407:heartbeat"
  {
    PrintedSample();
  }
}

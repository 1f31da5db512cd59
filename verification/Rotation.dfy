/** A pool of accounts or proxies from which one is drawn at random, leaving out those that failed a
    short while ago. The clock readings and the random draws are parameters. */
module Rotation {
  import opened Basics
  import Text

  type Time = int

  datatype Blacklist = Blacklist(until: map<string, Time>)

  /** Entries whose time has come are dropped. */
  function Cleaned(bad: Blacklist, now: Time): Blacklist {
    Blacklist(map v | v in bad.until && bad.until[v] > now :: bad.until[v])
  }

  function AvailableUpTo(values: seq<string>, bad: Blacklist, n: nat): seq<string>
    requires n <= |values|
  {
    if n == 0 then []
    else AvailableUpTo(values, bad, n - 1) + if values[n - 1] in bad.until then [] else [values[n - 1]]
  }

  function Available(values: seq<string>, bad: Blacklist): seq<string> {
    AvailableUpTo(values, bad, |values|)
  }

  /** The value drawn at a time; `choice` is the random number. */
  function Picked(values: seq<string>, bad: Blacklist, now: Time, choice: nat): Option<string> {
    var candidates := Available(values, Cleaned(bad, now));
    if candidates == [] then None else Some(candidates[choice % |candidates|])
  }

  function Marked(bad: Blacklist, ttl: int, value: Option<string>, now: Time): Blacklist {
    if value.None? || ttl <= 0 then bad else Blacklist(bad.until[value.value := now + ttl])
  }

  class RotationItem {
    const value: string
    var lastError: Option<string>

    constructor (value: string)
      ensures this.value == value && lastError == None
    {
      this.value := value;
      lastError := None;
    }
  }

  class RotationPool {
    const ttl: int
    const items: seq<RotationItem>
    var bad: Blacklist

    ghost function Values(): (values: seq<string>)
      ensures |values| == |items| && forall i | 0 <= i < |items| :: values[i] == items[i].value
    {
      seq(|items|, i requires 0 <= i < |items| => items[i].value)
    }

    constructor (values: seq<string>, ttl: int)
      ensures this.ttl == Max(0, ttl) && Values() == Text.NonEmpty(values) && bad == Blacklist(map[])
      ensures forall item | item in items :: fresh(item)
    {
      var list: seq<RotationItem> := [];
      for i := 0 to |values|
        invariant forall item | item in list :: fresh(item)
        invariant |list| == |Text.NonEmpty(values[..i])|
        invariant forall k | 0 <= k < |list| :: list[k].value == Text.NonEmpty(values[..i])[k]
      {
        assert values[..i + 1] == values[..i] + [values[i]];
        Text.NonEmptyAppend(values[..i], values[i]);
        if values[i] != "" {
          var item := new RotationItem(values[i]);
          list := list + [item];
        }
      }
      assert values[..|values|] == values;
      this.ttl := Max(0, ttl);
      items := list;
      bad := Blacklist(map[]);
    }

    method AvailableItems(now: Time) returns (candidates: seq<RotationItem>)
      modifies this
      ensures bad == Cleaned(old(bad), now)
      ensures |candidates| == |Available(Values(), bad)|
      ensures forall k | 0 <= k < |candidates| ::
                candidates[k] in items && candidates[k].value == Available(Values(), bad)[k]
    {
      bad := Cleaned(bad, now);
      candidates := [];
      for i := 0 to |items|
        invariant |candidates| == |AvailableUpTo(Values(), bad, i)|
        invariant forall k | 0 <= k < |candidates| ::
                    candidates[k] in items && candidates[k].value == AvailableUpTo(Values(), bad, i)[k]
      {
        if items[i].value !in bad.until {
          candidates := candidates + [items[i]];
        }
      }
    }

    method PickRandom(now: Time, choice: nat) returns (picked: RotationItem?)
      modifies this
      ensures bad == Cleaned(old(bad), now)
      ensures Picked(Values(), old(bad), now, choice) == if picked == null then None else Some(picked.value)
      ensures picked != null ==> picked in items
    {
      var candidates := AvailableItems(now);
      if candidates == [] {
        return null;
      }
      picked := candidates[choice % |candidates|];
    }

    method MarkBad(item: RotationItem?, reason: string, now: Time)
      modifies this, item
      ensures bad == Marked(old(bad), ttl, if item == null then None else Some(item.value), now)
      ensures item != null ==> item.lastError == Some(reason)
    {
      if item == null {
        return;
      }
      item.lastError := Some(reason);
      if ttl <= 0 {
        return;
      }
      bad := Blacklist(bad.until[item.value := now + ttl]);
    }
  }

  // ----- what is drawn ---------------------------------------------------------------------

  lemma {:induction false} AvailableMembers(values: seq<string>, bad: Blacklist, n: nat, v: string)
    requires n <= |values|
    ensures v in AvailableUpTo(values, bad, n) <==> v in values[..n] && v !in bad.until
  {
    if n > 0 {
      AvailableMembers(values, bad, n - 1, v);
      assert values[..n] == values[..n - 1] + [values[n - 1]];
    }
  }

  /** A draw gives a value of the pool that is not blacklisted at that time, and it gives none exactly
      when every value is. */
  lemma PickedIsAvailable(values: seq<string>, bad: Blacklist, now: Time, choice: nat)
    ensures var picked := Picked(values, bad, now, choice);
            if picked.Some?
            then picked.value in values && (picked.value in bad.until ==> bad.until[picked.value] <= now)
            else forall v | v in values :: v in bad.until && bad.until[v] > now
  {
    assert values[..|values|] == values;
    var clean := Cleaned(bad, now);
    var candidates := Available(values, clean);
    if candidates == [] {
      forall v | v in values ensures v in clean.until {
        AvailableMembers(values, clean, |values|, v);
      }
    } else {
      var v := candidates[choice % |candidates|];
      assert v in candidates;
      AvailableMembers(values, clean, |values|, v);
    }
  }

  /** A value that is marked cannot be drawn for exactly the time to live, whatever it was marked with before; without
      a time to live marking does nothing, and it never concerns other values. */
  lemma MarkedFor(bad: Blacklist, ttl: int, value: string, now: Time, v: string, at: Time)
    ensures var listed := v in Cleaned(Marked(bad, ttl, Some(value), now), at).until;
            listed <==> if v == value && ttl >= 1 then at < now + ttl else v in bad.until && at < bad.until[v]
    ensures Marked(bad, ttl, None, now) == bad
  {
  }
}

/**
The ring buffer of recent connector diagnostics (internal/connectors/diag.go).
 */
module DiagRing {

  import opened Wrappers

  datatype Diagnostic = Diagnostic(level: string, connector: string, message: string, error: string, timestamp: int)

  const RING_SIZE: nat := 100

  /** The last n elements, or all of them when there are fewer. */
  function Last<T>(s: seq<T>, n: nat): (r: seq<T>) {
    if |s| <= n then s else s[|s| - n..]
  }

  /** The slots before pos are the newest entries; once full, those from pos on are older ones. */
  predicate Holds<T(==)>(slots: seq<T>, pos: nat, full: bool, pushed: seq<T>) {
    |slots| == RING_SIZE && pos < RING_SIZE && (full <==> |pushed| >= RING_SIZE)
    && if full then Last(pushed, RING_SIZE) == slots[pos..] + slots[..pos]
       else |pushed| == pos && pushed == slots[..pos]
  }

  class DiagCollector {
    const items: array<Diagnostic>
    var pos: nat
    var full: bool
    ghost var pushed: seq<Diagnostic> // everything ever pushed, oldest first

    ghost predicate Valid()
      reads this, items
    {
      items.Length == RING_SIZE && Holds(items[..], pos, full, pushed)
    }

    constructor ()
      ensures Valid() && fresh(items) && pushed == []
    {
      items := new Diagnostic[RING_SIZE](_ => Diagnostic("", "", "", "", 0));
      pos, full, pushed := 0, false, [];
    }

    /** A full ring overwrites its oldest entry. */
    method Push(level: string, connector: string, message: string, err: Option<string>, now: int)
      requires Valid()
      modifies this, items
      ensures Valid()
      ensures pushed == old(pushed)
                        + [Diagnostic(level, connector, message, if err.Some? then err.value else "", now)]
    {
      var entry := Diagnostic(level, connector, message, "", now);
      if err.Some? {
        entry := entry.(error := err.value);
      }
      Overwrite(entry);
    }

    method Overwrite(entry: Diagnostic)
      requires Valid()
      modifies this, items
      ensures Valid() && pushed == old(pushed) + [entry]
    {
      PushHolds(items[..], pos, full, pushed, entry);
      ghost var after := items[..][pos := entry];
      items[pos] := entry;
      assert items[..] == after;
      pos := (pos + 1) % RING_SIZE;
      if pos == 0 {
        full := true;
      }
      pushed := pushed + [entry];
    }

    /** The most recent 100 diagnostics, or all while there are fewer, oldest first. */
    method List() returns (out: seq<Diagnostic>)
      requires Valid()
      ensures out == if |pushed| <= 100 then pushed else pushed[|pushed| - 100..]
    {
      if !full {
        return items[..][..pos];
      }
      out := items[..][pos..];
      out := out + items[..][..pos];
    }
  }

  /** The next slot, written: seen from the next position it drops the oldest and adds the newest. */
  lemma PushIntoSlices<T>(s: seq<T>, pos: nat, x: T)
    requires pos < |s|
    ensures var t := s[pos := x];
            t[..pos + 1] == s[..pos] + [x]
            && t[pos + 1..] + t[..pos + 1] == (s[pos..] + s[..pos])[1..] + [x]
  {
  }

  lemma PushHolds<T>(slots: seq<T>, pos: nat, full: bool, pushed: seq<T>, x: T)
    requires Holds(slots, pos, full, pushed)
    ensures var next := (pos + 1) % RING_SIZE;
            Holds(slots[pos := x], next, full || next == 0, pushed + [x])
  {
    var after := slots[pos := x];
    PushIntoSlices(slots, pos, x);
    if full || pos + 1 == RING_SIZE {
      var last := Last(pushed + [x], RING_SIZE);
      assert last == if full then Last(pushed, RING_SIZE)[1..] + [x] else pushed + [x];
      assert pos + 1 == RING_SIZE ==> after[pos + 1..] + after[..pos + 1] == after == after[0..] + after[..0];
    }
  }
}

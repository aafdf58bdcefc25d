/** The measurement log (src/services/StorageService.ts): a newest-first list of
    readings kept under one AsyncStorage key and capped at MAX_READINGS entries.

    AsyncStorage is an outside store: the value under the key is the field `item`
    (None when the key is absent), and whether each getItem / setItem / removeItem
    call succeeds is a boolean parameter. JSON serialisation is taken to round-trip,
    so the stored value is the list itself. */
module Storage {
  import opened Types
  import opened Seqs

  /** MAX_READINGS. */
  const MaxReadings: nat := 1000

  /** What `getReadings` yields for the stored value: an absent key reads as the
      empty list, and a failed read is caught and also reads as the empty list. */
  function Load(item: Option<seq<Reading>>, readOk: bool): (rs: seq<Reading>)
    ensures !readOk || item.None? ==> rs == []
    ensures readOk && item.Some? ==> rs == item.value
  {
    if readOk && item.Some? then item.value else []
  }

  /** `readings.unshift(r)` followed by `readings.splice(MAX_READINGS)` when the list
      has grown past the cap: r is first, then the old list minus its oldest entries. */
  function InsertCapped(rs: seq<Reading>, r: Reading): (out: seq<Reading>)
    ensures |out| == if |rs| < MaxReadings then |rs| + 1 else MaxReadings
    ensures out[0] == r
    ensures out[1..] == rs[..|out| - 1]
  {
    var withNew := [r] + rs;
    if |withNew| > MaxReadings then withNew[..MaxReadings] else withNew
  }

  /** `readings.filter((r) => r.id !== id)`. */
  function WithoutId(rs: seq<Reading>, id: string): (out: seq<Reading>)
    ensures |out| <= |rs|
    ensures forall i :: 0 <= i < |out| ==> out[i].id != id && out[i] in rs
    ensures forall i :: 0 <= i < |rs| && rs[i].id != id ==> rs[i] in out
  {
    Filter(rs, (x: Reading) => x.id != id)
  }

  /** `readings.filter((r) => r.timestamp >= startDate && r.timestamp <= endDate)`. */
  function InDateRange(rs: seq<Reading>, startDate: int, endDate: int): (out: seq<Reading>)
    ensures |out| <= |rs|
    ensures forall i :: 0 <= i < |out| ==> startDate <= out[i].timestamp <= endDate && out[i] in rs
    ensures forall i :: 0 <= i < |rs| && startDate <= rs[i].timestamp <= endDate ==> rs[i] in out
    ensures startDate > endDate ==> out == []
  {
    var out := Filter(rs, (x: Reading) => startDate <= x.timestamp <= endDate);
    assert out != [] ==> startDate <= out[0].timestamp <= endDate;
    out
  }

  /** Deleting an id that no stored reading carries leaves the list as it was. */
  lemma DeleteAbsentIdKeepsAll(rs: seq<Reading>, id: string)
    requires forall i :: 0 <= i < |rs| ==> rs[i].id != id
    ensures WithoutId(rs, id) == rs
  {
    FilterKeepsAll(rs, (x: Reading) => x.id != id);
  }

  /** Deletion keeps the survivors in their stored (newest-first) order: deleting from
      two halves of the list is deleting from each half and joining the results. */
  lemma DeleteKeepsOrder(a: seq<Reading>, b: seq<Reading>, id: string)
    ensures WithoutId(a + b, id) == WithoutId(a, id) + WithoutId(b, id)
  {
    FilterAppend(a, b, (x: Reading) => x.id != id);
  }

  /** The range query keeps the stored (newest-first) order in the same sense. */
  lemma RangeKeepsOrder(a: seq<Reading>, b: seq<Reading>, startDate: int, endDate: int)
    ensures InDateRange(a + b, startDate, endDate)
         == InDateRange(a, startDate, endDate) + InDateRange(b, startDate, endDate)
  {
    FilterAppend(a, b, (x: Reading) => startDate <= x.timestamp <= endDate);
  }

  /** The first min(|s|, MAX_READINGS) entries of s. */
  function KeepNewest(s: seq<Reading>): seq<Reading>
  {
    if |s| <= MaxReadings then s else s[..MaxReadings]
  }

  /** A series of successful saves, one after another, oldest first. */
  function SaveAll(rs: seq<Reading>, news: seq<Reading>): seq<Reading>
    decreases |news|
  {
    if news == [] then rs else SaveAll(InsertCapped(rs, news[0]), news[1..])
  }

  /** After any series of saves the log holds the newest MAX_READINGS readings of
      everything saved so far, newest first; e.g. 1001 saves into an empty log keep
      exactly the last 1000 of them. */
  lemma {:induction false} SaveAllKeepsNewest(rs: seq<Reading>, news: seq<Reading>)
    requires |rs| <= MaxReadings
    ensures SaveAll(rs, news) == KeepNewest(Reverse(news) + rs)
    decreases |news|
  {
    if news == [] {
      assert Reverse(news) + rs == rs;
    } else {
      var r := news[0];
      SaveAllKeepsNewest(InsertCapped(rs, r), news[1..]);
      InsertCappedKeepsNewest(rs, r);
      KeepNewestAbsorbs(Reverse(news[1..]), [r] + rs);
      ReverseStep(news, rs);
    }
  }

  /** One capped insert keeps the newest MAX_READINGS of the new reading and the log. */
  lemma InsertCappedKeepsNewest(rs: seq<Reading>, r: Reading)
    ensures InsertCapped(rs, r) == KeepNewest([r] + rs)
  {
  }

  /** Truncating the tail before or after prepending more entries gives the same list. */
  lemma KeepNewestAbsorbs(front: seq<Reading>, back: seq<Reading>)
    ensures KeepNewest(front + KeepNewest(back)) == KeepNewest(front + back)
  {
    if |back| > MaxReadings {
      assert (front + back)[..MaxReadings] == (front + back[..MaxReadings])[..MaxReadings];
    }
  }

  /** FINDING (as written): when the read inside `saveReading` fails, `getReadings`
      hands back an empty list and the save overwrites the whole log with the one
      new reading. */
  lemma FailedReadSaveDropsHistory(stored: seq<Reading>, r: Reading)
    requires stored != []
    ensures InsertCapped(Load(Some(stored), false), r) == [r]
    ensures InsertCapped(Load(Some(stored), false), r) != InsertCapped(stored, r)
  {
  }

  /** FINDING (as written): when the read inside `deleteReading` fails, the delete
      writes back an empty list, removing every reading and not only the one asked for. */
  lemma FailedReadDeleteDropsHistory(stored: seq<Reading>, id: string, k: nat)
    requires k < |stored| && stored[k].id != id
    ensures WithoutId(Load(Some(stored), false), id) == []
    ensures WithoutId(Load(Some(stored), false), id) != WithoutId(stored, id)
  {
  }

  class StorageService {
    /** The value under READINGS_KEY ('audio_readings'); None while the key is absent. */
    var item: Option<seq<Reading>>

    /** The log as `getReadings` sees it when the read succeeds. */
    ghost function Contents(): seq<Reading>
      reads this
    {
      Load(item, true)
    }

    /** The log respects the cap. A persisted log may already exceed it (the
        constructor takes whatever the key holds), so no method requires it; each
        write keeps it once it holds. */
    ghost predicate Valid()
      reads this
    {
      |Contents()| <= MaxReadings
    }

    /** The service over whatever the key currently holds. */
    constructor (persisted: Option<seq<Reading>>)
      ensures item == persisted
    {
      item := persisted;
    }

    /** getReadings: the stored list, [] for an absent key or a failed read. */
    method GetReadings(readOk: bool) returns (rs: seq<Reading>)
      ensures readOk ==> rs == Contents()
      ensures !readOk ==> rs == []
    {
      if readOk && item.Some? {
        rs := item.value;
      } else {
        rs := [];
      }
    }

    /** A read that reports failure instead of swallowing it. */
    method ReadChecked(readOk: bool) returns (res: Option<seq<Reading>>)
      ensures readOk ==> res == Some(Contents())
      ensures !readOk ==> res == None
    {
      if !readOk {
        return None;
      }
      res := Some(if item.Some? then item.value else []);
    }

    /** saveReading, with the failed read propagated to the catch before any write:
        the new reading goes first, the oldest entries beyond the cap are dropped, and
        a failed read or write leaves the key untouched. */
    method SaveReading(r: Reading, readOk: bool, writeOk: bool)
      modifies this
      ensures readOk && writeOk ==> Contents() == InsertCapped(old(Contents()), r)
      ensures !(readOk && writeOk) ==> item == old(item)
      ensures old(Valid()) ==> Valid()
    {
      var loaded := ReadChecked(readOk);
      if loaded.None? {
        return;
      }
      var readings := [r] + loaded.value;
      if |readings| > MaxReadings {
        readings := readings[..MaxReadings];
      }
      if writeOk {
        item := Some(readings);
      }
    }

    /** saveReading exactly as the source has it: a failed read becomes [], and the
        write then replaces the log by the new reading alone. */
    method SaveReadingAsWritten(r: Reading, readOk: bool, writeOk: bool)
      modifies this
      ensures writeOk ==> Contents() == InsertCapped(Load(old(item), readOk), r)
      ensures !writeOk ==> item == old(item)
      ensures old(Valid()) ==> Valid()
    {
      var readings := GetReadings(readOk);
      readings := [r] + readings;
      if |readings| > MaxReadings {
        readings := readings[..MaxReadings];
      }
      if writeOk {
        item := Some(readings);
      }
    }

    /** deleteReading, with the failed read propagated: exactly the readings with a
        different id stay, in order; a failed read or write leaves the key untouched. */
    method DeleteReading(id: string, readOk: bool, writeOk: bool)
      modifies this
      ensures readOk && writeOk ==> Contents() == WithoutId(old(Contents()), id)
      ensures !(readOk && writeOk) ==> item == old(item)
      ensures old(Valid()) ==> Valid()
    {
      var loaded := ReadChecked(readOk);
      if loaded.None? {
        return;
      }
      var filtered := WithoutId(loaded.value, id);
      if writeOk {
        item := Some(filtered);
      }
    }

    /** deleteReading exactly as the source has it: a failed read becomes [], and the
        write then empties the log. */
    method DeleteReadingAsWritten(id: string, readOk: bool, writeOk: bool)
      modifies this
      ensures writeOk ==> Contents() == WithoutId(Load(old(item), readOk), id)
      ensures !writeOk ==> item == old(item)
      ensures old(Valid()) ==> Valid()
    {
      var readings := GetReadings(readOk);
      var filtered := WithoutId(readings, id);
      if writeOk {
        item := Some(filtered);
      }
    }

    /** clearAllReadings: removes the key, after which the log reads as empty. */
    method ClearAllReadings(removeOk: bool)
      modifies this
      ensures removeOk ==> item == None && Contents() == []
      ensures !removeOk ==> item == old(item)
      ensures old(Valid()) ==> Valid()
    {
      if removeOk {
        item := None;
      }
    }

    /** getReadingsByDateRange: the stored readings stamped within [startDate, endDate],
        newest first as stored; it never writes. */
    method GetReadingsByDateRange(startDate: int, endDate: int, readOk: bool) returns (rs: seq<Reading>)
      ensures rs == InDateRange(if readOk then Contents() else [], startDate, endDate)
      ensures !readOk || startDate > endDate ==> rs == []
    {
      var readings := GetReadings(readOk);
      rs := InDateRange(readings, startDate, endDate);
    }
  }
}

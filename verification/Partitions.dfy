/** The offsets and sizes that CreatePartition of drive.c gives to the partitions of a drive. */
module Partitions {
  import Padding

  const MB := 0x10_0000
  const MAX_PARTITIONS := 16
  const MAX_ISO_TO_ESP_SIZE := 0x4000_0000
  const ESP_SIZE := 260 * MB
  const MSR_SIZE := 128 * MB

  datatype Part = Part(offset: nat, size: nat)

  /** The drive, the partition scheme, the cluster size chosen (0 if none) and the partitions
      wanted beside the main one. severalMountable says that an EFI System Partition may come
      first; asEsp that the main partition is to be one itself. */
  datatype Plan = Plan(diskSize: nat, sector: nat, sectorsPerTrack: nat, gpt: bool, oldBios: bool, clusterChosen: nat,
                       severalMountable: bool, msr: bool, esp: bool, uefiNtfs: bool, compat: bool, persistence: bool,
                       uefiNtfsSize: nat, persistenceSize: nat, asEsp: bool)

  function Track(p: Plan): (r: nat) { p.sectorsPerTrack * p.sector }

  function Cluster(p: Plan): (r: nat) { if p.clusterChosen == 0 then 0x200 else p.clusterChosen }

  /** The drive has a geometry, and what the program asserts about the combination holds. */
  predicate Sensible(p: Plan) {
    p.sector > 0 && Track(p) > 0 && (p.esp || p.msr ==> p.gpt)
  }

  function Floor(x: nat, y: nat): (r: nat)
    requires y > 0
  {
    x / y * y
  }

  function Ceiling(x: nat, y: nat): (r: nat)
    requires y > 0
  {
    (x + y - 1) / y * y
  }

  predicate Multiple(x: nat, y: nat)
    requires y > 0
  {
    x % y == 0
  }

  lemma FloorIs(x: nat, y: nat)
    requires y > 0
    ensures Floor(x, y) <= x < Floor(x, y) + y && Multiple(Floor(x, y), y)
  {
    var q := x / y;
    assert x == y * q + x % y;
    assert q * y == y * q;
    Padding.Remainder(q * y, y, q, 0);
  }

  lemma CeilingIs(x: nat, y: nat)
    requires y > 0
    ensures x <= Ceiling(x, y) < x + y && Multiple(Ceiling(x, y), y)
  {
    FloorIs(x + y - 1, y);
  }

  /** Flooring keeps at least every multiple below. */
  lemma FloorAbove(x: nat, m: nat, y: nat)
    requires y > 0 && Multiple(m, y) && m <= x
    ensures Floor(x, y) >= m
  {
    FloorIs(x, y);
    var q, k := x / y, m / y;
    assert m == y * k && q * y == y * q && x == y * q + x % y;
    NotMore(y, k, q, x);
  }

  lemma SumMultiple(a: nat, b: nat, y: nat)
    requires y > 0 && Multiple(a, y) && Multiple(b, y)
    ensures Multiple(a + b, y)
  {
    Padding.Whole(a, b / y, y);
  }

  /** Where a partition may begin behind one that ends at end: up to the next track, then, if
      clusters are made of sectors, down to a cluster. */
  function NextOffset(p: Plan, end: nat): (r: nat)
    requires Sensible(p)
  {
    var next := Ceiling(end, Track(p));
    if Cluster(p) % p.sector == 0 then Floor(next, Cluster(p)) else next
  }

  /** Going down to a cluster stays behind the partition before exactly when the next cluster
      boundary is not behind the next track boundary. */
  lemma StaysBehind(p: Plan, end: nat)
    requires Sensible(p)
    ensures NextOffset(p, end) >= end <==>
            Cluster(p) % p.sector != 0 || Ceiling(end, Cluster(p)) <= Ceiling(end, Track(p))
  {
    hide Multiple;
    var t, k := Track(p), Cluster(p);
    CeilingIs(end, t);
    CeilingIs(end, k);
    var next := Ceiling(end, t);
    FloorIs(next, k);
    if Ceiling(end, k) <= next { FloorAbove(next, Ceiling(end, k), k); }
    if Floor(next, k) >= end { LeastAbove(end, Floor(next, k), k); }
  }

  /** The ceiling is the least multiple not below. */
  lemma LeastAbove(x: nat, m: nat, y: nat)
    requires y > 0 && Multiple(m, y) && x <= m
    ensures Ceiling(x, y) <= m
  {
    var q, k := (x + y - 1) / y, m / y;
    assert m == y * k && q * y == y * q;
    assert x + y - 1 == y * q + (x + y - 1) % y;
    NotMore(y, q, k, x + y - 1);
  }

  lemma NotMore(y: nat, q: nat, k: nat, n: nat)
    requires y * q <= n && n < y * k + y
    ensures y * q <= y * k
  {
    if k < q { Padding.MoreTimes(y, k, q); } else { assert y * k == y * q + y * (k - q); }
  }

  /** It does whenever the partition before ends on a cluster boundary, which the partitions in
      front do if the clusters divide a megabyte. */
  lemma AlignedStays(p: Plan, end: nat)
    requires Sensible(p) && Multiple(end, Cluster(p))
    ensures end <= NextOffset(p, end) < end + Track(p)
    ensures Cluster(p) % p.sector == 0 ==> Multiple(NextOffset(p, end), Cluster(p))
  {
    hide Multiple, Floor, Ceiling;
    CeilingIs(end, Track(p));
    FloorIs(Ceiling(end, Track(p)), Cluster(p));
    if Cluster(p) % p.sector == 0 { FloorAbove(Ceiling(end, Track(p)), end, Cluster(p)); }
  }

  /** The bounds of StaysBehind are needed in general: with clusters of 32 MB and tracks of 63
      sectors of 512 bytes, what follows an EFI System Partition in front would begin 5 MB before
      its end. No caller asks for that, as RequestedTidy shows. */
  lemma LargeClusterOverlap(p: Plan)
    requires p.sector == 512 && p.sectorsPerTrack == 63 && p.clusterChosen == 32 * MB && p.gpt
    ensures NextOffset(p, MB + ESP_SIZE) == MB + ESP_SIZE - 5 * MB
  {
  }

  // ---- The table ----

  datatype Table = Refused | Table(parts: seq<Part>, main: nat)

  function EndOf(x: Part): (r: nat) { x.offset + x.size }

  /** Where the space for partitions ends: GPT keeps 33 sectors for its backup. */
  function Limit(p: Plan): (r: int) {
    if p.gpt then p.diskSize - 33 * p.sector else p.diskSize
  }

  /** Each partition ends before the next begins, from one on. */
  predicate Ordered(parts: seq<Part>, from: nat) {
    forall i :: from <= i && i + 1 < |parts| ==> EndOf(parts[i]) <= parts[i + 1].offset
  }

  /** Partitions in front of the main one keep their place: there are none, or clusters are not
      made of sectors, or they divide a megabyte. */
  predicate Tidy(p: Plan)
    requires Sensible(p)
  {
    Cluster(p) % p.sector != 0 || Multiple(MB, Cluster(p)) || !((p.severalMountable && p.esp) || p.msr)
  }

  /** What callers ask for: partitions in front of the main one are for Windows To Go alone, which
      takes NTFS alone, and NTFS has clusters of 4 KB to 64 KB. */
  predicate Requested(p: Plan) {
    p.esp || p.msr ==> p.clusterChosen in {0, 0x1000, 0x2000, 0x4000, 0x8000, 0x1_0000}
  }

  /** So partitions in front always keep their place. */
  lemma RequestedTidy(p: Plan)
    requires Sensible(p) && Requested(p)
    ensures Tidy(p)
  {
    hide Track;
    if p.esp || p.msr { ClustersOfMegabyte(Cluster(p)); }
  }

  lemma ClustersOfMegabyte(k: nat)
    requires k in {0x200, 0x1000, 0x2000, 0x4000, 0x8000, 0x1_0000}
    ensures Multiple(MB, k)
  {
  }

  /** Where the first partition begins. */
  function First(p: Plan): (r: nat)
    requires Sensible(p)
  {
    if p.gpt || !p.oldBios then MB else 2 * Ceiling(Track(p), Cluster(p))
  }

  /** The partition pi gets its size, and the next one its offset. */
  method PlaceFront(p: Plan, part: array<Part>, pi: nat, size: nat)
    requires Sensible(p) && pi + 1 < part.Length
    modifies part
    ensures part[..] == old(part[..])[pi := Part(old(part[pi].offset), size)]
                                     [pi + 1 := Part(NextOffset(p, old(part[pi].offset) + size), old(part[pi + 1].size))]
  {
    part[pi] := part[pi].(size := size);
    part[pi + 1] := part[pi + 1].(offset := NextOffset(p, part[pi].offset + part[pi].size));
  }

  /** The partitions in front of the main one; mi is the main one's place. */
  method PlaceAllFront(p: Plan, part: array<Part>) returns (mi: nat)
    requires Sensible(p) && part.Length == MAX_PARTITIONS && part[0].offset == First(p)
    modifies part
    ensures mi <= 2 && mi == (if p.severalMountable && p.esp then 1 else 0) + if p.msr then 1 else 0
    ensures Tidy(p) ==> Ordered(part[..mi + 1], 0)
    ensures part[mi].offset <= First(p) + ESP_SIZE + MSR_SIZE + 2 * Track(p)
    ensures part[0].offset == First(p)
  {
    hide Multiple, Floor, Ceiling, NextOffset;
    mi := 0;
    FrontMultiple(p);
    if p.severalMountable && p.esp {
      NextBound(p, part[mi].offset + ESP_SIZE);
      AlignedNext(p, part[mi].offset, ESP_SIZE);
      PlaceFront(p, part, mi, ESP_SIZE);
      mi := mi + 1;
    }
    if p.msr {
      NextBound(p, part[mi].offset + MSR_SIZE);
      AlignedNext(p, part[mi].offset, MSR_SIZE);
      PlaceFront(p, part, mi, MSR_SIZE);
      mi := mi + 1;
    }
  }

  lemma NextBound(p: Plan, end: nat)
    requires Sensible(p)
    ensures NextOffset(p, end) < end + Track(p)
    ensures Cluster(p) % p.sector != 0 ==> NextOffset(p, end) >= end
  {
    CeilingIs(end, Track(p));
    FloorIs(Ceiling(end, Track(p)), Cluster(p));
  }

  /** Sizes in front are whole megabytes, so offsets stay on cluster boundaries. */
  lemma AlignedNext(p: Plan, offset: nat, size: nat)
    requires Sensible(p) && (size == ESP_SIZE || size == MSR_SIZE)
    ensures Multiple(MB, Cluster(p)) && Multiple(offset, Cluster(p)) && Cluster(p) % p.sector == 0 ==>
      NextOffset(p, offset + size) >= offset + size && Multiple(NextOffset(p, offset + size), Cluster(p))
  {
    hide NextOffset;
    if Multiple(MB, Cluster(p)) && Multiple(offset, Cluster(p)) {
      Times(MB, size / MB, Cluster(p));
      SumMultiple(offset, size, Cluster(p));
      AlignedStays(p, offset + size);
    }
  }

  lemma Times(x: nat, n: nat, y: nat)
    requires y > 0 && Multiple(x, y)
    ensures Multiple(x * n, y)
  {
    assert x == y * (x / y);
    assert x * n == y * (x / y * n);
    Padding.Remainder(x * n, y, x / y * n, 0);
  }

  lemma FrontMultiple(p: Plan)
    requires Sensible(p)
    ensures Multiple(MB, Cluster(p)) ==> Multiple(First(p), Cluster(p))
  {
    hide Ceiling;
    CeilingIs(Track(p), Cluster(p));
    Times(Ceiling(Track(p), Cluster(p)), 2, Cluster(p));
  }

  /** The partition behind the main one that is added besides persistence: its size, none if 0. */
  function LastExtra(p: Plan): (r: nat)
    requires Sensible(p)
  {
    if p.esp && !p.severalMountable then Ceiling(ESP_SIZE, Track(p))
    else if p.uefiNtfs then Ceiling(p.uefiNtfsSize, Track(p))
    else if p.compat then Track(p)
    else 0
  }

  predicate HasLast(p: Plan) {
    (p.esp && !p.severalMountable) || p.uefiNtfs || p.compat
  }

  /** The sizes of the partitions behind the main one, in their order on the disk. */
  function Extras(p: Plan): (r: seq<nat>)
    requires Sensible(p)
    ensures |r| <= 2
  {
    (if p.persistence then [Ceiling(p.persistenceSize, Track(p))] else []) + (if HasLast(p) then [LastExtra(p)] else [])
  }

  /** Entries for the partitions behind the main one, with their sizes rounded up to tracks. */
  method AddExtras(p: Plan, part: array<Part>, first: nat) returns (pi: nat)
    requires Sensible(p) && part.Length == MAX_PARTITIONS && first <= 3
    modifies part
    ensures pi == first + |Extras(p)|
    ensures forall i :: 0 <= i < first ==> part[i] == old(part[i])
    ensures forall i :: first <= i < pi ==> part[i].size == Extras(p)[i - first]
  {
    hide Ceiling;
    pi := first;
    if p.persistence {
      part[pi] := part[pi].(size := Ceiling(p.persistenceSize, Track(p)));
      pi := pi + 1;
    }
    if p.esp && !p.severalMountable {
      part[pi] := part[pi].(size := Ceiling(ESP_SIZE, Track(p)));
      pi := pi + 1;
    } else if p.uefiNtfs {
      part[pi] := part[pi].(size := Ceiling(p.uefiNtfsSize, Track(p)));
      pi := pi + 1;
    } else if p.compat {
      part[pi] := part[pi].(size := Track(p));
      pi := pi + 1;
    }
  }

  /** The room the extra partitions need at most, with rounding. */
  function Room(sizes: seq<nat>, track: nat): (r: nat) {
    if sizes == [] then 0 else Room(sizes[1..], track) + sizes[0] + track
  }

  /** What partition i must not reach into. */
  function Follows(parts: seq<Part>, i: nat, limit: nat): (r: nat)
    requires i < |parts|
  {
    if i + 1 < |parts| then parts[i + 1].offset else limit
  }

  /** A partition behind the main one: on a track, and not beyond what follows. */
  predicate Seated(p: Plan, parts: seq<Part>, i: nat, limit: nat)
    requires Sensible(p) && i < |parts|
  {
    Multiple(parts[i].offset, Track(p)) && EndOf(parts[i]) <= Follows(parts, i, limit)
  }

  /** The offsets of the partitions behind the main one, from the last one down, each on a track;
      last is where the first of them begins. It fails if there is no room. */
  method PlaceExtras(p: Plan, part: array<Part>, mi: nat, pi: nat, limit: nat, ghost sizes: seq<nat>)
    returns (ok: bool, last: nat)
    requires Sensible(p) && mi < pi <= part.Length && |sizes| == pi - mi - 1
    requires forall i :: mi < i < pi ==> part[i].size == sizes[i - mi - 1]
    modifies part
    ensures forall i :: 0 <= i <= mi ==> part[i] == old(part[i])
    ensures forall i :: mi < i < pi ==> part[i].size == sizes[i - mi - 1]
    ensures ok ==> last == Follows(part[..pi], mi, limit) <= limit
    ensures ok ==> forall i :: mi < i < pi ==> Seated(p, part[..pi], i, limit)
    ensures Room(sizes, Track(p)) < limit ==> ok && last + Room(sizes, Track(p)) >= limit
  {
    hide Multiple, Floor, Track, Seated;
    ok, last := true, limit;
    var i := pi - 1;
    while i > mi
      invariant mi <= i < pi && last == Follows(part[..pi], i, limit) <= limit
      invariant forall k :: 0 <= k <= i ==> part[k] == old(part[k])
      invariant forall k :: mi < k < pi ==> part[k].size == sizes[k - mi - 1]
      invariant forall k :: i < k < pi ==> Seated(p, part[..pi], k, limit)
      invariant last + Room(sizes[i - mi..], Track(p)) >= limit
    {
      NextRoom(sizes, i - mi - 1, Track(p));
      if part[i].size >= last {
        return false, last;
      }
      ghost var was := part[..pi];
      last := Seat(p, part, i, last);
      StillSeated(p, was, part[..pi], i, part[i], limit);
      i := i - 1;
    }
    assert sizes[0..] == sizes;
  }

  /** One partition's offset. */
  method Seat(p: Plan, part: array<Part>, i: nat, last: nat) returns (offset: nat)
    requires Sensible(p) && i < part.Length && part[i].size < last
    modifies part
    ensures part[..] == old(part[..])[i := Part(offset, old(part[i].size))]
    ensures Multiple(offset, Track(p)) && offset + old(part[i].size) <= last < offset + old(part[i].size) + Track(p)
  {
    hide Multiple, Floor;
    FloorIs(last - part[i].size, Track(p));
    offset := Floor(last - part[i].size, Track(p));
    part[i] := part[i].(offset := offset);
  }

  lemma StillSeated(p: Plan, was: seq<Part>, now: seq<Part>, i: nat, x: Part, limit: nat)
    requires Sensible(p) && i < |was| && now == was[i := x] && Multiple(x.offset, Track(p)) && EndOf(x) <= Follows(was, i, limit)
    requires forall k :: i < k < |was| ==> Seated(p, was, k, limit)
    ensures forall k :: i <= k < |now| ==> Seated(p, now, k, limit)
  {
    hide Multiple;
    forall k | i <= k < |now| ensures Seated(p, now, k, limit) {
      if k > i { assert Seated(p, was, k, limit); }
    }
  }

  lemma NextRoom(sizes: seq<nat>, k: nat, track: nat)
    requires k < |sizes|
    ensures Room(sizes[k..], track) == Room(sizes[k + 1..], track) + sizes[k] + track
    ensures Room(sizes[k..], track) <= Room(sizes, track)
    decreases k
  {
    assert sizes[k..][1..] == sizes[k + 1..];
    if k > 0 {
      NextRoom(sizes, k - 1, track);
    } else {
      assert sizes[0..] == sizes;
    }
  }

  /** The main partition's size: up to what follows, down to a track and then to a cluster. */
  function MainSize(p: Plan, room: nat): (r: nat)
    requires Sensible(p)
  {
    var size := Floor(if p.asEsp && room > MAX_ISO_TO_ESP_SIZE then MAX_ISO_TO_ESP_SIZE else room, Track(p));
    if Cluster(p) % p.sector == 0 then Floor(size, Cluster(p)) else size
  }

  lemma MainSizeIs(p: Plan, room: nat)
    requires Sensible(p)
    ensures MainSize(p, room) <= room
    ensures !p.asEsp || room <= MAX_ISO_TO_ESP_SIZE ==> room < MainSize(p, room) + Track(p) + Cluster(p)
    ensures p.asEsp && room > MAX_ISO_TO_ESP_SIZE ==> MAX_ISO_TO_ESP_SIZE < MainSize(p, room) + Track(p) + Cluster(p)
  {
    hide Multiple, Floor;
    var n := if p.asEsp && room > MAX_ISO_TO_ESP_SIZE then MAX_ISO_TO_ESP_SIZE else room;
    FloorIs(n, Track(p));
    FloorIs(Floor(n, Track(p)), Cluster(p));
  }

  /** More than this the partitions never need. */
  function Enough(p: Plan): (r: nat)
    requires Sensible(p)
  {
    33 * p.sector + First(p) + ESP_SIZE + MSR_SIZE + 2 * Track(p) + Room(Extras(p), Track(p)) + Track(p) + Cluster(p)
  }

  /** CreatePartition. What it makes lies behind the start and before the limit, each partition
      from the main one on before the next, and all of them if nothing in front loses its place,
      as for everything that callers ask for;
      between the main partition and what follows less than a track and a cluster is lost (unless
      it is cut to its largest size as an EFI System Partition). Only a disk that is too small is
      refused. */
  method CreatePartition(p: Plan) returns (r: Table)
    requires Sensible(p) && (p.asEsp ==> Track(p) + Cluster(p) <= MAX_ISO_TO_ESP_SIZE)
    ensures r.Refused? ==> p.diskSize <= Enough(p)
    ensures r.Table? ==> Limit(p) >= 0 && Sound(p, r.parts, r.main, Limit(p))
    ensures r.Table? && Requested(p) ==> Ordered(r.parts, 0)
  {
    hide Requested, Multiple, Floor, Ceiling, First, Extras, Tidy, MainSize, Room, Track, Ordered, Seated, Sound;
    var part := new Part[MAX_PARTITIONS](_ => Part(0, 0));
    part[0] := Part(First(p), 0);
    var mi := PlaceAllFront(p, part);
    ghost var front := part[..mi + 1];
    var pi := AddExtras(p, part, mi + 1);
    if p.gpt && 33 * p.sector > p.diskSize {
      return Refused;
    }
    var limit := if p.gpt then p.diskSize - 33 * p.sector else p.diskSize;
    var ok, last := PlaceExtras(p, part, mi, pi, limit, Extras(p));
    if !ok || last <= part[mi].offset {
      return Refused;
    }
    var room := last - part[mi].offset;
    MainSizeIs(p, room);
    ghost var placed := part[..pi];
    assert placed[..mi + 1] == front;
    part[mi] := part[mi].(size := MainSize(p, room));
    if part[mi].size == 0 {
      return Refused;
    }
    assert part[..pi] == placed[mi := part[mi]];
    Assembled(p, front, placed, mi, part[mi], limit);
    r := Table(part[..pi], mi);
    if Requested(p) {
      RequestedTidy(p);
      SoundOrdered(p, r.parts, mi, limit);
    }
  }

  lemma SoundOrdered(p: Plan, parts: seq<Part>, main: nat, limit: nat)
    requires Sensible(p) && Sound(p, parts, main, limit) && Tidy(p)
    ensures Ordered(parts, 0)
  {
    hide Tidy, First, Extras, Ordered, Seated, Multiple;
  }

  /** A sound table: the partitions wanted, in the space there is, in order, the extra ones on
      tracks, and less than a track and a cluster lost behind the main one. */
  predicate Sound(p: Plan, parts: seq<Part>, main: nat, limit: nat)
    requires Sensible(p)
  {
    main == (if p.severalMountable && p.esp then 1 else 0) + (if p.msr then 1 else 0) &&
    |parts| == main + 1 + |Extras(p)| <= MAX_PARTITIONS &&
    parts[0].offset == First(p) && EndOf(parts[|parts| - 1]) <= limit &&
    Ordered(parts, main) && (Tidy(p) ==> Ordered(parts, 0)) && parts[main].size > 0 &&
    (forall i :: main < i < |parts| ==> parts[i].size == Extras(p)[i - main - 1] && Seated(p, parts, i, limit)) &&
    (p.asEsp || Follows(parts, main, limit) < EndOf(parts[main]) + Track(p) + Cluster(p))
  }

  /** The main partition's size completes a sound table. */
  lemma Assembled(p: Plan, front: seq<Part>, placed: seq<Part>, main: nat, x: Part, limit: nat)
    requires Sensible(p) && main == (if p.severalMountable && p.esp then 1 else 0) + (if p.msr then 1 else 0)
    requires |placed| == main + 1 + |Extras(p)| && placed[..main + 1] == front
    requires front[0].offset == First(p) && (Tidy(p) ==> Ordered(front, 0))
    requires forall i :: main < i < |placed| ==> placed[i].size == Extras(p)[i - main - 1] && Seated(p, placed, i, limit)
    requires x.offset == placed[main].offset && x.size > 0 && EndOf(x) <= Follows(placed, main, limit) <= limit
    requires p.asEsp || Follows(placed, main, limit) < EndOf(x) + Track(p) + Cluster(p)
    ensures Sound(p, placed[main := x], main, limit)
  {
    hide First, Tidy, Extras, Multiple, Track, Ordered, Seated;
    var parts := placed[main := x];
    MainSeated(p, placed, parts, main, x, limit);
    if Tidy(p) { FrontOrdered(front, placed, parts, main, x); }
  }

  /** The partitions from the main one on. */
  lemma MainSeated(p: Plan, placed: seq<Part>, parts: seq<Part>, main: nat, x: Part, limit: nat)
    requires Sensible(p) && main < |placed| && parts == placed[main := x]
    requires x.offset == placed[main].offset && EndOf(x) <= Follows(placed, main, limit) <= limit
    requires forall i :: main < i < |placed| ==> Seated(p, placed, i, limit)
    ensures forall i :: main < i < |parts| ==> Seated(p, parts, i, limit)
    ensures Ordered(parts, main) && EndOf(parts[|parts| - 1]) <= limit
  {
    hide Multiple, Track;
    forall i | main < i < |parts| ensures Seated(p, parts, i, limit) { assert Seated(p, placed, i, limit); }
    if |parts| > main + 1 { assert Seated(p, parts, |parts| - 1, limit); }
    forall i | main <= i && i + 1 < |parts| ensures EndOf(parts[i]) <= parts[i + 1].offset {
      if i > main { assert Seated(p, parts, i, limit); }
    }
  }

  /** The partitions in front keep their order. */
  lemma FrontOrdered(front: seq<Part>, placed: seq<Part>, parts: seq<Part>, main: nat, x: Part)
    requires main < |placed| && parts == placed[main := x] && x.offset == placed[main].offset
    requires placed[..main + 1] == front && Ordered(front, 0) && Ordered(parts, main)
    ensures Ordered(parts, 0)
  {
    forall i | 0 <= i && i + 1 < |parts| ensures EndOf(parts[i]) <= parts[i + 1].offset {
      if i < main {
        assert EndOf(front[i]) <= front[i + 1].offset;
        assert front[i] == placed[i] && front[i + 1] == placed[i + 1];
      }
    }
  }
}

/** pkg/localtools/command.go: the buffer a command writes its output to. It shows the first `limit`
 * bytes and archives a head window and, in a ring, a tail window of everything. Bytes are characters. */
module OutputBuffer {
  import Text

  type Bytes = string

  function Min(a: int, b: int): int {
    if a < b then a else b
  }

  // Everything written so far.
  function Concat(writes: seq<Bytes>): Bytes {
    if writes == [] then [] else Concat(writes[..|writes| - 1]) + writes[|writes| - 1]
  }

  // The last n bytes, or all of them.
  function Last(s: Bytes, n: nat): Bytes {
    if |s| <= n then s else s[|s| - n..]
  }

  function First(s: Bytes, n: nat): Bytes {
    if |s| <= n then s else s[..n]
  }

  // Half of the archive limit, at least one byte.
  function Window(archiveLimit: int): (half: nat)
    ensures half > 0
  {
    if archiveLimit < 2 then 1 else archiveLimit / 2
  }

  // The head window of the output, and the tail window of what follows it.
  function HeadWindow(s: Bytes, archiveLimit: int): Bytes {
    if archiveLimit <= 0 then [] else First(s, Window(archiveLimit))
  }

  function TailWindow(s: Bytes, archiveLimit: int): Bytes {
    if archiveLimit <= 0 then [] else Last(s[|HeadWindow(s, archiveLimit)|..], Window(archiveLimit))
  }

  function VisiblePart(s: Bytes, limit: int): Bytes {
    if limit <= 0 then s else First(s, limit)
  }

  // An empty write that finds the buffer full.
  ghost predicate EmptyWriteWhenFull(writes: seq<Bytes>, limit: int) {
    exists i :: 0 <= i < |writes| && writes[i] == [] && |Concat(writes[..i])| >= limit
  }

  // A byte was left out of the visible part, or an empty write came when it was already full.
  ghost predicate Overrun(writes: seq<Bytes>, limit: int) {
    limit > 0 && (|Concat(writes)| > limit || EmptyWriteWhenFull(writes, limit))
  }

  function GapMarker(dropped: nat): string {
    "\n[... " + Text.Decimal(dropped) + " bytes of output dropped ...]\n"
  }

  // What Archive answers for an output S that was truncated.
  function ArchiveOf(s: Bytes, archiveLimit: int): Bytes {
    var head, tail := HeadWindow(s, archiveLimit), TailWindow(s, archiveLimit);
    var dropped := |s| - |head| - |tail|;
    if dropped <= 0 then head + tail else head + GapMarker(dropped) + tail
  }

  class LimitedBuffer {
    const limit: int
    const archiveLimit: int
    var buf: Bytes
    var total: nat
    var truncated: bool
    var head: Bytes
    var tail: Bytes
    var tailStart: nat
    var tailFull: bool
    ghost var writes: seq<Bytes>

    // The ring in write order.
    function Unrolled(): Bytes
      reads this`tail, this`tailStart, this`tailFull
      requires RingValid()
    {
      if tailFull then tail[tailStart..] + tail[..tailStart] else tail
    }

    predicate RingValid()
      reads this`tail, this`tailStart, this`tailFull
    {
      if tailFull then |tail| == Window(archiveLimit) && tailStart < |tail| else |tail| < Window(archiveLimit)
    }

    ghost predicate Valid()
      reads this
    {
      var s := Concat(writes);
      && total == |s|
      && buf == VisiblePart(s, limit)
      && (truncated <==> Overrun(writes, limit))
      && RingValid()
      && head == HeadWindow(s, archiveLimit)
      && Unrolled() == TailWindow(s, archiveLimit)
    }

    constructor (limit: int, archiveLimit: int)
      ensures Valid() && writes == [] && this.limit == limit && this.archiveLimit == archiveLimit
    {
      this.limit, this.archiveLimit := limit, archiveLimit;
      buf, total, truncated := [], 0, false;
      head, tail, tailStart, tailFull := [], [], 0, false;
      writes := [];
    }

    method Write(p: Bytes) returns (n: nat)
      requires Valid()
      modifies this
      ensures Valid() && n == |p| && writes == old(writes) + [p]
    {
      ghost var s := Concat(writes);
      WriteExtends(writes, p, limit);
      hide Concat, Overrun, HeadWindow, TailWindow, RingValid, Unrolled, VisiblePart;
      total := total + |p|;
      Archive(p, s);
      Show(p, s);
      writes := writes + [p];
      n := |p|;
    }

    // The visible part takes what still fits.
    method Show(p: Bytes, ghost s: Bytes)
      requires buf == VisiblePart(s, limit)
      modifies this`buf, this`truncated
      ensures buf == VisiblePart(s + p, limit)
      ensures truncated <==> old(truncated) || (limit > 0 && (|s| + |p| > limit || |s| >= limit))
    {
      VisibleGrows(s, p, limit);
      hide VisiblePart;
      if limit <= 0 {
        buf := buf + p;
        return;
      }
      var remaining := limit - |buf|;
      if remaining <= 0 {
        truncated := true;
        return;
      }
      if |p| > remaining {
        buf := buf + p[..remaining];
        truncated := true;
        return;
      }
      buf := buf + p;
    }

    // archive: the head first, every later byte to the ring.
    method Archive(p: Bytes, ghost s: Bytes)
      requires RingValid() && head == HeadWindow(s, archiveLimit) && Unrolled() == TailWindow(s, archiveLimit)
      modifies this`head, this`tail, this`tailStart, this`tailFull
      ensures RingValid() && head == HeadWindow(s + p, archiveLimit) && Unrolled() == TailWindow(s + p, archiveLimit)
    {
      if archiveLimit <= 0 {
        return;
      }
      var half := archiveLimit / 2;
      if half < 1 {
        half := 1;
      }
      HeadFills(s, p, archiveLimit);
      hide HeadWindow, TailWindow, RingValid, Unrolled, Last, First;
      var room := half - |head|;
      var rest := p;
      if room > 0 {
        if |p| <= room {
          head := head + p;
          return;
        }
        head := head + p[..room];
        rest := p[room..];
      }
      ArchiveRest(rest);
    }

    lemma RingFits()
      requires RingValid()
      ensures |Unrolled()| <= Window(archiveLimit)
    {
    }

    // What the head did not take goes to the ring, of which only the last window can survive.
    method ArchiveRest(p: Bytes)
      requires RingValid()
      modifies this`tail, this`tailStart, this`tailFull
      ensures RingValid() && Unrolled() == Last(old(Unrolled()) + p, Window(archiveLimit))
    {
      hide *;
      var half := Window(archiveLimit);
      ghost var ring := Unrolled();
      RingFits();
      LastAbsorbs(ring, p, half);
      LastCuts(p, half);
      LastCuts(ring, half);
      var rest := p;
      if |rest| > half {
        rest := rest[|rest| - half..];
      }
      assert ring + rest[..0] == ring;
      for i := 0 to |rest|
        invariant RingValid() && Unrolled() == Last(ring + rest[..i], half)
      {
        LastStep(ring, rest, i, half);
        PushByte(rest[i]);
      }
      assert rest[..|rest|] == rest;
    }

    // One byte into the ring.
    method PushByte(c: char)
      requires RingValid()
      modifies this`tail, this`tailStart, this`tailFull
      ensures RingValid() && Unrolled() == Last(old(Unrolled()) + [c], Window(archiveLimit))
    {
      var half := Window(archiveLimit);
      hide Window, Last;
      if !tailFull {
        RingFills(tail, c, half);
        tail := tail + [c];
        if |tail| == half {
          tailFull := true;
          tailStart := 0;
        }
      } else {
        RingAdvances(tail, tailStart, c);
        var next := (tailStart + 1) % half;
        tail := tail[tailStart := c];
        tailStart := next;
      }
    }

    method TailBytes() returns (out: Bytes)
      requires RingValid()
      ensures out == Unrolled()
    {
      if !tailFull {
        return tail;
      }
      out := tail[tailStart..];
      out := out + tail[..tailStart];
    }

    method ArchiveText() returns (r: Bytes)
      requires Valid()
      ensures r == if archiveLimit <= 0 || !Overrun(writes, limit) then [] else ArchiveOf(Concat(writes), archiveLimit)
    {
      if archiveLimit <= 0 || !truncated {
        return [];
      }
      var t := TailBytes();
      if |t| == 0 {
        NothingBehindHead(Concat(writes), archiveLimit);
        return head;
      }
      var dropped := total - |head| - |t|;
      if dropped <= 0 {
        return head + t;
      }
      return head + GapMarker(dropped) + t;
    }
  }

  // ---- Windows ----

  lemma LastCuts(s: Bytes, n: nat)
    ensures Last(s, n) == if |s| <= n then s else s[|s| - n..]
  {
  }

  lemma LastStep(s: Bytes, p: Bytes, i: nat, n: nat)
    requires n > 0 && i < |p|
    ensures Last(Last(s + p[..i], n) + [p[i]], n) == Last(s + p[..i + 1], n)
  {
    hide Last;
    LastJoins(s + p[..i], [p[i]], n);
    assert s + p[..i] + [p[i]] == s + p[..i + 1];
  }

  // Bytes that cannot survive in the window may be skipped.
  lemma LastAbsorbs(s: Bytes, p: Bytes, n: nat)
    ensures Last(Last(s, n) + Last(p, n), n) == Last(s + p, n)
  {
  }

  lemma RingFills(ring: Bytes, c: char, half: nat)
    requires |ring| < half
    ensures Last(ring + [c], half) == ring + [c] == (ring + [c])[0..] + (ring + [c])[..0]
  {
  }

  // Overwriting the oldest byte of a full ring drops it from the front and puts the new one at the back.
  lemma RingAdvances(ring: Bytes, at: nat, c: char)
    requires at < |ring|
    ensures var next := (at + 1) % |ring|; var ring' := ring[at := c];
            next < |ring| && ring'[next..] + ring'[..next] == Last(ring[at..] + ring[..at] + [c], |ring|)
  {
    var ring' := ring[at := c];
    var before := ring[at..] + ring[..at];
    assert Last(before + [c], |ring|) == before[1..] + [c];
    hide Last;
    if at + 1 == |ring| {
      assert (at + 1) % |ring| == 0;
      assert ring' == before[1..] + [c];
      assert ring'[0..] + ring'[..0] == ring';
    } else {
      assert (at + 1) % |ring| == at + 1;
      assert ring'[at + 1..] + ring'[..at + 1] == before[1..] + [c];
    }
  }

  // How both windows grow when p is written after s.
  lemma HeadFills(s: Bytes, p: Bytes, archiveLimit: int)
    requires archiveLimit > 0
    ensures var half, head := Window(archiveLimit), HeadWindow(s, archiveLimit);
            var room := half - |head|;
            && 0 <= room
            && (|p| <= room ==> HeadWindow(s + p, archiveLimit) == head + p)
            && (|p| <= room && room > 0 ==> TailWindow(s + p, archiveLimit) == TailWindow(s, archiveLimit))
            && (|p| > room ==> HeadWindow(s + p, archiveLimit) == head + p[..room])
            && (|p| >= room ==>
                  TailWindow(s + p, archiveLimit) == Last(TailWindow(s, archiveLimit) + p[room..], half))
            && (room == 0 ==> HeadWindow(s + p, archiveLimit) == head && p[room..] == p)
  {
    FirstGrows(s, p, Window(archiveLimit));
    BehindFirstGrows(s, p, Window(archiveLimit));
    hide Window, First, Last;
  }

  lemma FirstGrows(s: Bytes, p: Bytes, half: nat)
    requires half > 0
    ensures var room := half - |First(s, half)|;
            && 0 <= room
            && (|p| <= room ==> First(s + p, half) == First(s, half) + p)
            && (|p| > room ==> First(s + p, half) == First(s, half) + p[..room])
            && (room == 0 ==> First(s + p, half) == First(s, half) && p[room..] == p)
  {
  }

  lemma BehindFirstGrows(s: Bytes, p: Bytes, half: nat)
    requires half > 0
    ensures var head, head' := First(s, half), First(s + p, half);
            var room := half - |head|;
            && (|p| <= room && room > 0 ==> (s + p)[|head'|..] == s[|head|..])
            && (|p| >= room ==> Last((s + p)[|head'|..], half) == Last(Last(s[|head|..], half) + p[room..], half))
  {
    hide Last;
    var head := First(s, half);
    var room := half - |head|;
    if |p| >= room {
      assert (s + p)[half..] == s[|head|..] + p[room..];
      LastJoins(s[|head|..], p[room..], half);
    }
  }

  lemma LastJoins(s: Bytes, p: Bytes, n: nat)
    ensures Last(Last(s, n) + p, n) == Last(s + p, n)
  {
  }

  lemma VisibleGrows(s: Bytes, p: Bytes, limit: int)
    ensures var seen := VisiblePart(s, limit); var seen' := VisiblePart(s + p, limit); var remaining := limit - |seen|;
            && (limit <= 0 ==> seen' == seen + p)
            && (limit > 0 && remaining <= 0 ==> seen' == seen && |s| >= limit)
            && (limit > 0 && 0 < remaining < |p| ==> seen' == seen + p[..remaining])
            && (limit > 0 && |p| <= remaining ==> seen' == seen + p)
            && (limit > 0 ==> 0 <= remaining && (|s| + |p| > limit <==> |p| > remaining || |s| > limit))
            && (limit > 0 && remaining > 0 ==> |s| == |seen|)
  {
  }

  lemma NothingBehindHead(s: Bytes, archiveLimit: int)
    requires archiveLimit > 0 && TailWindow(s, archiveLimit) == []
    ensures ArchiveOf(s, archiveLimit) == HeadWindow(s, archiveLimit)
  {
    assert HeadWindow(s, archiveLimit) + [] == HeadWindow(s, archiveLimit);
  }

  lemma WriteExtends(writes: seq<Bytes>, p: Bytes, limit: int)
    ensures Concat(writes + [p]) == Concat(writes) + p
    ensures Overrun(writes, limit) ==> limit > 0
    ensures Overrun(writes + [p], limit) <==>
              limit > 0 && (Overrun(writes, limit) || |Concat(writes)| + |p| > limit || (p == [] && |Concat(writes)| >= limit))
  {
    var grown := writes + [p];
    assert grown[..|writes|] == writes;
    assert forall i :: 0 <= i <= |writes| ==> grown[..i] == writes[..i];
    if limit > 0 && p == [] && |Concat(writes)| >= limit {
      assert grown[|writes|] == [];
    }
    if limit > 0 && exists i :: 0 <= i < |writes| && writes[i] == [] && |Concat(writes[..i])| >= limit {
      var i :| 0 <= i < |writes| && writes[i] == [] && |Concat(writes[..i])| >= limit;
      assert grown[i] == [] && grown[..i] == writes[..i];
    }
  }

  // Whether bytes were left out is exactly what the buffer reports, if and only if some were or no empty write met a full
  // buffer (a buffer without a limit never reports anything).
  lemma TruncatedMeansLeftOut(writes: seq<Bytes>, limit: int)
    ensures var leftOut := VisiblePart(Concat(writes), limit) != Concat(writes);
            (Overrun(writes, limit) <==> leftOut) <==> (leftOut || limit <= 0 || !EmptyWriteWhenFull(writes, limit))
  {
  }

  // An empty write to a full buffer is reported as truncation although nothing was left out.
  lemma EmptyWriteReportsTruncation()
    ensures Overrun(["a", ""], 1) && VisiblePart(Concat(["a", ""]), 1) == Concat(["a", ""])
  {
    var writes := ["a", ""];
    assert writes[..1] == ["a"] && writes[..1][..0] == [];
    assert Concat(["a"]) == Concat([]) + "a";
    assert Concat(writes) == Concat(writes[..1]) + "" == "a";
    assert writes[1] == [] && |Concat(writes[..1])| >= 1;
  }

  // Nothing is dropped as long as the output fits two windows, and then the archive is the output; otherwise the
  // archive is its two ends around a marker that names exactly the number of bytes missing between them.
  lemma ArchiveKeepsBothEnds(s: Bytes, archiveLimit: int)
    requires archiveLimit > 0
    ensures var half, head, tail := Window(archiveLimit), HeadWindow(s, archiveLimit), TailWindow(s, archiveLimit);
            if |s| <= 2 * half then ArchiveOf(s, archiveLimit) == s
            else |head| == half && |tail| == half
                 && s == head + s[half..|s| - half] + tail
                 && ArchiveOf(s, archiveLimit)
                    == head + "\n[... " + Text.Decimal(|s| - 2 * half) + " bytes of output dropped ...]\n" + tail
  {
    EndsOf(s, Window(archiveLimit));
    hide First, Last, Window, GapMarker;
  }

  lemma EndsOf(s: Bytes, half: nat)
    requires half > 0
    ensures var head := First(s, half); var tail := Last(s[|head|..], half);
            if |s| <= 2 * half then head + tail == s && |head| + |tail| == |s|
            else |head| == half && |tail| == half && s == head + s[half..|s| - half] + tail
  {
  }

  // What is retained is all of the output or two equal windows that fill the archive limit, up to one byte of an odd limit;
  // only a limit of one retains more than it says, two bytes.
  lemma RetentionBound(s: Bytes, archiveLimit: int)
    ensures |HeadWindow(s, archiveLimit)| + |TailWindow(s, archiveLimit)|
         == if archiveLimit <= 0 then 0 else Min(|s|, if archiveLimit == 1 then 2 else archiveLimit - archiveLimit % 2)
  {
  }

  // The visible part is the beginning of the output, as much of it as the limit allows.
  lemma VisibleIsBeginning(s: Bytes, limit: int)
    ensures VisiblePart(s, limit) <= s && |VisiblePart(s, limit)| == if limit <= 0 then |s| else Min(|s|, limit)
  {
  }
}

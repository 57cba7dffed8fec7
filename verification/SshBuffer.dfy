/**
 The growing FIFO buffer of buffer.c: one array that is compacted, enlarged and consumed
 in place, proved to be a queue of octets.
 */
module SshBuffer {
  import opened Bytes

  const BUFFER_MAX_CHUNK: nat := 0x100000
  const BUFFER_MAX_LEN: nat := 0xa00000
  const BUFFER_ALLOCSZ: nat := 0x008000

  /** `fatal` ends the process. */
  datatype Outcome = Pass | Fatal

  /** roundup of defines.h, without the wrap of u_int. */
  function RoundUp(x: nat, y: nat): (r: nat)
    requires y > 0
    ensures x <= r < x + y
  {
    ((x + (y - 1)) / y) * y
  }

  /** The three numbers the space computations depend on. */
  datatype Shape = Shape(alloc: nat, offset: nat, end: nat)

  predicate Sane(s: Shape) {
    s.offset <= s.end < s.alloc <= BUFFER_MAX_LEN
  }

  /** Buffers start with 4096 octets and grow to multiples of BUFFER_ALLOCSZ. */
  predicate Aligned(s: Shape) {
    s.alloc == 4096 || s.alloc % BUFFER_ALLOCSZ == 0
  }

  /** An empty buffer starts over at the beginning. */
  function Rewound(s: Shape): (r: Shape)
    ensures Sane(s) ==> Sane(r) && r.end - r.offset == s.end - s.offset
  {
    if s.offset == s.end then Shape(s.alloc, 0, 0) else s
  }

  predicate Compactable(s: Shape) {
    s.offset > Min(s.alloc, BUFFER_MAX_CHUNK)
  }

  function Compacted(s: Shape): (r: Shape)
    requires s.offset <= s.end
  {
    Shape(s.alloc, 0, s.end - s.offset)
  }

  /** The largest end position an append would start from once nothing more can be compacted. */
  function LastEnd(s: Shape, len: nat): (r: nat)
    requires s.offset <= s.end
  {
    var t := Rewound(s);
    if t.end + len >= t.alloc && Compactable(t) then t.end - t.offset else t.end
  }

  /** Exactly when buffer_append_space gives up. */
  predicate Refuses(s: Shape, len: nat)
    requires s.offset <= s.end
  {
    || len > BUFFER_MAX_CHUNK
    || (LastEnd(s, len) + len >= s.alloc && RoundUp(s.alloc + len, BUFFER_ALLOCSZ) > BUFFER_MAX_LEN)
  }

  lemma {:induction false} RoundUpGrows(x: nat, y: nat)
    requires x <= y
    ensures RoundUp(x, BUFFER_ALLOCSZ) <= RoundUp(y, BUFFER_ALLOCSZ)
  {
  }

  /** Where more fits, less fits. */
  lemma {:induction false} LessFits(s: Shape, len: nat, n: nat)
    requires Sane(s) && n <= len && !Refuses(s, len)
    ensures !Refuses(s, n)
  {
    RoundUpGrows(s.alloc + n, s.alloc + len);
  }

  /** A queue that stays below `most` octets is never refused more, if a megabyte and a bit is to spare. */
  lemma {:induction false} Roomy(s: Shape, len: nat, most: nat)
    requires Sane(s) && len <= BUFFER_MAX_CHUNK && s.end - s.offset + len <= most
    requires most + len + BUFFER_MAX_CHUNK + BUFFER_ALLOCSZ <= BUFFER_MAX_LEN
    ensures !Refuses(s, len)
  {
    var t := Rewound(s);
    assert LastEnd(s, len) <= s.end - s.offset + BUFFER_MAX_CHUNK || LastEnd(s, len) + len < s.alloc;
  }

  /** Where an append that is not refused takes place: as it is, compacted, or enlarged. */
  function Roomed(s: Shape, len: nat): (r: Shape)
    requires Sane(s)
  {
    var t := Rewound(s);
    var u := if t.end + len >= t.alloc && Compactable(t) then Compacted(t) else t;
    if u.end + len < u.alloc then u else u.(alloc := RoundUp(u.alloc + len, BUFFER_ALLOCSZ))
  }

  function Appended(s: Shape, len: nat): (r: Shape)
    requires Sane(s)
  {
    var t := Roomed(s, len);
    t.(end := t.end + len)
  }

  /** How far the loop of buffer_append_space has come from `start`. */
  ghost predicate OnTheWay(start: Shape, len: nat, now: Shape, compactions: nat, growths: nat)
    requires start.offset <= start.end
  {
    var u := if compactions == 1 then Compacted(start) else start;
    && compactions <= 1 && growths <= 1
    && (compactions == 1 ==> start.end + len >= start.alloc && Compactable(start))
    && (growths == 0 ==> now == u)
    && (growths == 1 ==>
          && (compactions == 1 || !Compactable(start)) && u.end + len >= u.alloc
          && now == u.(alloc := RoundUp(u.alloc + len, BUFFER_ALLOCSZ)) && now.alloc <= BUFFER_MAX_LEN)
  }

  /** The loop gives up. */
  predicate Stopped(s: Shape, len: nat) {
    s.end + len >= s.alloc && !Compactable(s) && RoundUp(s.alloc + len, BUFFER_ALLOCSZ) > BUFFER_MAX_LEN
  }

  lemma {:induction false} WayEnds(s: Shape, len: nat, now: Shape, compactions: nat, growths: nat)
    requires Sane(s) && len <= BUFFER_MAX_CHUNK && OnTheWay(Rewound(s), len, now, compactions, growths)
    ensures now.end + len < now.alloc ==> now == Roomed(s, len) && !Refuses(s, len)
    ensures growths == 0 && Stopped(now, len) ==> Refuses(s, len)
    ensures now.alloc == s.alloc || now.alloc == RoundUp(s.alloc + len, BUFFER_ALLOCSZ)
  {
  }

  lemma {:induction false} Joined(b: seq<u8>, i: nat, p: nat, j: nat)
    requires i <= p <= j <= |b|
    ensures b[i..j] == b[i..p] + b[p..j]
  {
  }

  lemma {:induction false} Shortened(b: seq<u8>, i: nat, j: nat, n: nat)
    requires i <= j <= |b| && n <= j - i
    ensures b[i..j - n] == b[i..j][..j - i - n]
  {
  }

  /** Compacted because of `len`, if the sum did not wrap around. */
  predicate Tightened(s: Shape, len: nat, now: Shape)
    requires s.offset <= s.end
  {
    var t := Rewound(s);
    Compactable(t) && now == Compacted(t) && (t.end + len < U32 ==> t.end + len >= t.alloc)
  }

  /** What buffer_check_alloc leaves is as good as what it found. */
  lemma {:induction false} StillFits(s: Shape, len: nat, now: Shape)
    requires Sane(s) && len <= BUFFER_MAX_CHUNK && !Refuses(s, len)
    requires now == Rewound(s) || Tightened(s, len, now)
    ensures !Refuses(now, len)
  {
  }

  class Buffer {
    var buf: array<u8>
    var alloc: nat
    var offset: nat
    var end: nat

    ghost predicate Valid()
      reads this
    {
      Sane(Dimensions()) && Aligned(Dimensions()) && buf.Length == alloc
    }

    function Dimensions(): (s: Shape)
      reads this
    {
      Shape(alloc, offset, end)
    }

    function Contents(): (s: seq<u8>)
      reads this, buf
      requires Valid()
    {
      buf[offset..end]
    }

    constructor ()
      ensures Valid() && fresh(buf) && Contents() == [] && alloc == 4096
    {
      buf := new u8[4096];
      alloc := 4096;
      offset := 0;
      end := 0;
    }

    method Clear()
      requires Valid()
      modifies this
      ensures Valid() && Contents() == [] && buf == old(buf) && alloc == old(alloc)
    {
      offset := 0;
      end := 0;
    }

    function Length(): (n: nat)
      reads this, buf
      requires Valid()
      ensures n == |Contents()|
    {
      end - offset
    }

    /** Moves the data to the front when more than the threshold lies unused there. */
    method Compact() returns (did: bool)
      requires Valid()
      modifies this, buf
      ensures Valid() && buf == old(buf) && Contents() == old(Contents())
      ensures did <==> Compactable(old(Dimensions()))
      ensures Dimensions() == if did then Compacted(old(Dimensions())) else old(Dimensions())
    {
      did := false;
      if offset > Min(alloc, BUFFER_MAX_CHUNK) {
        var k, n := 0, end - offset;
        ghost var was := buf[..];
        while k < n
          modifies buf
          invariant 0 <= k <= n
          invariant forall i :: 0 <= i < k ==> buf[i] == was[offset + i]
          invariant forall i :: k <= i < buf.Length ==> buf[i] == was[i]
        {
          buf[k] := buf[offset + k];
          k := k + 1;
        }
        assert buf[..n] == was[offset..end];
        end := end - offset;
        offset := 0;
        did := true;
      }
    }

    /** Replaces the array by a larger one with the same beginning. */
    method Grow(newlen: nat)
      requires Valid() && alloc <= newlen <= BUFFER_MAX_LEN && newlen % BUFFER_ALLOCSZ == 0
      modifies this
      ensures Valid() && fresh(buf) && Contents() == old(Contents())
      ensures Dimensions() == old(Dimensions()).(alloc := newlen)
    {
      var bigger := new u8[newlen];
      forall i | 0 <= i < alloc {
        bigger[i] := buf[i];
      }
      assert bigger[offset..end] == buf[offset..end];
      buf := bigger;
      alloc := newlen;
    }

    /** The loop of buffer_append_space: a restart after a compaction, and one after a growth. */
    method MakeRoom(len: nat) returns (r: Outcome, ghost compactions: nat, ghost growths: nat)
      requires Valid()
      modifies this, buf
      ensures Valid() && (buf == old(buf) || fresh(buf)) && Contents() == old(Contents())
      ensures OnTheWay(old(Dimensions()), len, Dimensions(), compactions, growths)
      ensures r.Pass? ==> end + len < alloc
      ensures r.Fatal? ==> Stopped(Dimensions(), len) && growths == 0
    {
      compactions, growths := 0, 0;
      ghost var start := Dimensions();
      while end + len >= alloc
        invariant Valid() && (buf == old(buf) || fresh(buf)) && Contents() == old(Contents())
        invariant OnTheWay(start, len, Dimensions(), compactions, growths)
        invariant growths == 1 ==> end + len < alloc
        decreases 1 - growths, 1 - compactions
      {
        var did := Compact();
        if did {
          compactions := compactions + 1;
          continue;
        }
        var newlen := RoundUp(alloc + len, BUFFER_ALLOCSZ);
        if newlen > BUFFER_MAX_LEN {
          return Fatal, compactions, growths;
        }
        Grow(newlen);
        growths := growths + 1;
      }
      r := Pass;
    }

    /**
     Makes room for `len` octets behind the data and returns where they go.  The restart
     happens at most once for a compaction and once for a growth.
     */
    method AppendSpace(len: nat) returns (r: Outcome, p: nat, ghost compactions: nat, ghost growths: nat)
      requires Valid()
      modifies this, buf
      ensures Valid() && (buf == old(buf) || fresh(buf))
      ensures r.Fatal? <==> Refuses(old(Dimensions()), len)
      ensures r.Pass? ==> p + len == end && offset <= p && buf[offset..p] == old(Contents())
      ensures r.Pass? ==> Dimensions() == Appended(old(Dimensions()), len)
      ensures r.Fatal? ==> Contents() == old(Contents())
      ensures alloc == old(alloc) || alloc == RoundUp(old(alloc) + len, BUFFER_ALLOCSZ)
      ensures compactions <= 1 && growths <= 1
    {
      compactions, growths, p := 0, 0, 0;
      if len > BUFFER_MAX_CHUNK {
        return Fatal, p, compactions, growths;
      }
      Rewind();
      r, compactions, growths := MakeRoom(len);
      WayEnds(old(Dimensions()), len, Dimensions(), compactions, growths);
      if r.Pass? {
        p := end;
        end := end + len;
      }
    }

    /** An empty buffer starts over. */
    method Rewind()
      requires Valid()
      modifies this`offset, this`end
      ensures Valid() && Contents() == old(Contents()) && Dimensions() == Rewound(old(Dimensions()))
    {
      if offset == end {
        offset := 0;
        end := 0;
      }
    }

    /** The octets of `data` from position p on. */
    method Write(p: nat, data: seq<u8>)
      requires Valid() && offset <= p && p + |data| == end
      modifies buf
      ensures Contents() == old(buf[offset..p]) + data
    {
      forall i | 0 <= i < |data| {
        buf[p + i] := data[i];
      }
      Joined(buf[..], offset, p, end);
      assert buf[offset..p] == old(buf[offset..p]) && buf[p..end] == data;
    }

    method Append(data: seq<u8>) returns (r: Outcome)
      requires Valid()
      modifies this, buf
      ensures Valid() && (buf == old(buf) || fresh(buf))
      ensures r.Fatal? <==> Refuses(old(Dimensions()), |data|)
      ensures r.Pass? ==> Contents() == old(Contents()) + data && Dimensions() == Appended(old(Dimensions()), |data|)
      ensures alloc <= old(alloc) + |data| + BUFFER_ALLOCSZ
    {
      var p: nat;
      ghost var compactions, growths;
      r, p, compactions, growths := AppendSpace(|data|);
      if r.Pass? {
        Write(p, data);
      }
    }

    /** buffer_get_ret. */
    method GetRet(len: nat) returns (ok: bool, data: seq<u8>)
      requires Valid()
      modifies this
      ensures Valid() && buf == old(buf) && alloc == old(alloc)
      ensures ok <==> len <= |old(Contents())|
      ensures ok ==> data + Contents() == old(Contents()) && |data| == len
      ensures !ok ==> Contents() == old(Contents()) && data == []
    {
      if len > end - offset {
        return false, [];
      }
      data := buf[offset..offset + len];
      offset := offset + len;
      ok := true;
    }

    /** buffer_consume_ret. */
    method ConsumeRet(bytes: nat) returns (ok: bool)
      requires Valid()
      modifies this
      ensures Valid() && buf == old(buf) && alloc == old(alloc)
      ensures ok <==> bytes <= |old(Contents())|
      ensures Contents() == if ok then old(Contents())[bytes..] else old(Contents())
    {
      if bytes > end - offset {
        return false;
      }
      offset := offset + bytes;
      ok := true;
    }

    /** buffer_consume_end_ret. */
    method ConsumeEndRet(bytes: nat) returns (ok: bool)
      requires Valid()
      modifies this
      ensures Valid() && buf == old(buf) && alloc == old(alloc)
      ensures ok <==> bytes <= |old(Contents())|
      ensures Contents() == if ok then old(Contents())[..|old(Contents())| - bytes] else old(Contents())
    {
      if bytes > end - offset {
        return false;
      }
      Shortened(buf[..], offset, end, bytes);
      end := end - bytes;
      ok := true;
    }

    /** The computation of buffer_check_alloc, on u_int. */
    method TryAlloc(len: nat) returns (ok: bool)
      requires Valid() && len < U32
      modifies this, buf
      ensures Valid() && buf == old(buf) && Contents() == old(Contents())
      ensures ok == Promises(old(Dimensions()), len)
      ensures Dimensions() == Rewound(old(Dimensions())) || Tightened(old(Dimensions()), len, Dimensions())
    {
      ghost var s := Dimensions();
      Rewind();
      if Wrap(end + len) < alloc {
        PromisedAtOnce(s, len);
        return true;
      }
      ghost var asked := end;
      var did := Compact();
      PromisedLater(s, len, Dimensions());
      NotWrapped(asked, alloc, len);
      ok := (did && Wrap(end + len) < alloc) || MayGrow(alloc, len);
    }

    /** buffer_check_alloc: it may compact, and changes nothing a reader can see. */
    method CheckAlloc(len: nat) returns (ok: bool)
      requires Valid() && len < U32
      modifies this, buf
      ensures Valid() && buf == old(buf) && Contents() == old(Contents())
      ensures ok == Promises(old(Dimensions()), len)
      ensures len <= BUFFER_MAX_CHUNK ==> (ok <==> !Refuses(old(Dimensions()), len))
      ensures len <= BUFFER_MAX_CHUNK && ok ==> !Refuses(Dimensions(), len)
    {
      ghost var s := Dimensions();
      ok := TryAlloc(len);
      CheckAllocAgrees(s, len);
      if len <= BUFFER_MAX_CHUNK && ok {
        StillFits(s, len, Dimensions());
      }
    }
  }

  /** roundup of defines.h on u_int. */
  function RoundUpU32(x: nat, y: nat): (r: nat)
    requires y > 0
    ensures x + y < U32 ==> r == RoundUp(x, y)
  {
    Wrap((Wrap(x + (y - 1)) / y) * y)
  }

  predicate MayGrow(alloc: nat, len: nat) { RoundUpU32(Wrap(alloc + len), BUFFER_ALLOCSZ) <= BUFFER_MAX_LEN }

  lemma {:induction false} NotWrapped(e: nat, alloc: nat, len: nat)
    requires Wrap(e + len) >= alloc
    ensures e + len < U32 ==> e + len >= alloc
  {
  }

  lemma {:induction false} PromisedAtOnce(s: Shape, len: nat)
    requires s.offset <= s.end && Wrap(Rewound(s).end + len) < s.alloc
    ensures Promises(s, len)
  {
  }

  lemma {:induction false} PromisedLater(s: Shape, len: nat, now: Shape)
    requires s.offset <= s.end && Wrap(Rewound(s).end + len) >= s.alloc
    requires now == if Compactable(Rewound(s)) then Compacted(Rewound(s)) else Rewound(s)
    ensures Promises(s, len) <==> (Compactable(Rewound(s)) && Wrap(now.end + len) < s.alloc) || MayGrow(s.alloc, len)
  {
  }

  /** What buffer_check_alloc answers, with its u_int arithmetic. */
  predicate Promises(s: Shape, len: nat)
    requires s.offset <= s.end
  {
    var t := Rewound(s);
    var e := if Wrap(t.end + len) >= t.alloc && Compactable(t) then t.end - t.offset else t.end;
    Wrap(e + len) < t.alloc || MayGrow(t.alloc, len)
  }

  /**
   Above BUFFER_MAX_CHUNK the append always gives up, so buffer_check_alloc is right there
   only when it answers no: when no sum wraps around and the new size would be too large.
   */
  lemma CheckAllocAgrees(s: Shape, len: nat)
    requires Sane(s) && len < U32
    ensures len <= BUFFER_MAX_CHUNK ==> (Promises(s, len) <==> !Refuses(s, len))
    ensures len > BUFFER_MAX_CHUNK ==>
              ((Promises(s, len) <==> !Refuses(s, len)) <==>
               (LastEnd(s, len) + len >= s.alloc && s.alloc + len > BUFFER_MAX_LEN &&
                s.alloc + len + (BUFFER_ALLOCSZ - 1) < U32))
  {
    var t := Rewound(s);
  }

  /** buffer_check_alloc promises room for 2^32 - 1 octets in a fresh buffer. */
  lemma CheckAllocWraps()
    ensures var s := Shape(4096, 0, 0); Sane(s) && Promises(s, 0xffff_ffff) && Refuses(s, 0xffff_ffff)
  {
    assert Wrap(4096 + 0xffff_ffff) == 4095;
    assert RoundUpU32(4095, BUFFER_ALLOCSZ) == 0x8000;
  }
}

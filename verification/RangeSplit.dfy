/** How userfs_file_write and readi cut a request into pieces. */
module RangeSplit {

  const BLOCK: nat := 4096
  const LARGE: nat := 2097152
  const U32: nat := 0x1_0000_0000
  const U64: nat := 0x1_0000_0000_0000_0000

  /** A transfer of `len` bytes at file offset `off`, to or from byte `at` of the caller's buffer. */
  datatype Piece = Piece(off: nat, at: nat, len: nat)

  /** ALIGN(x, BLOCK) */
  function Align(x: nat): (r: nat)
    ensures r % BLOCK == 0 && x <= r < x + BLOCK
  {
    x + (BLOCK - x % BLOCK) % BLOCK
  }

  // ----- What a good cut is -----

  /** The pieces follow each other from `off` on, in the file and in the buffer, and end `len` bytes later. */
  ghost predicate Tiles(pieces: seq<Piece>, off: nat, len: nat) {
    && (pieces == [] ==> len == 0)
    && (pieces != [] ==> pieces[0].off == off && pieces[|pieces| - 1].off + pieces[|pieces| - 1].len == off + len)
    && (forall i :: 0 <= i < |pieces| ==> pieces[i].len > 0 && pieces[i].off == off + pieces[i].at)
    && (forall i :: 0 <= i < |pieces| - 1 ==> pieces[i + 1].off == pieces[i].off + pieces[i].len)
  }

  predicate OnBlock(x: nat) {
    x % BLOCK == 0
  }

  /** Part of one block. */
  predicate Small(p: Piece) {
    0 < p.len < BLOCK && p.off / BLOCK == (p.off + p.len - 1) / BLOCK
  }

  /** Whole blocks. */
  predicate Whole(p: Piece) {
    0 < p.len && p.off % BLOCK == 0 && p.len % BLOCK == 0
  }

  /** Inside one 2 MiB unit. */
  predicate InLarge(p: Piece) {
    0 < p.len && p.off / LARGE == (p.off + p.len - 1) / LARGE
  }

  lemma {:induction false} TilesNext(pieces: seq<Piece>, off: nat, done: nat, len: nat)
    requires Tiles(pieces, off, done) && len > 0
    ensures Tiles(pieces + [Piece(off + done, done, len)], off, done + len)
  {
    var all := pieces + [Piece(off + done, done, len)];
    forall i | 0 <= i < |all| - 1 ensures all[i + 1].off == all[i].off + all[i].len {
      if i < |pieces| - 1 { assert pieces[i + 1].off == pieces[i].off + pieces[i].len; }
    }
  }

  /** Every byte of the request is in exactly one piece. */
  lemma {:induction false} TilesCover(pieces: seq<Piece>, off: nat, len: nat, b: nat)
    requires Tiles(pieces, off, len) && off <= b < off + len
    ensures exists i :: 0 <= i < |pieces| && In(pieces[i], b) && forall j :: 0 <= j < |pieces| && In(pieces[j], b) ==>
      j == i
  {
    var i := 0;
    while !In(pieces[i], b)
      invariant 0 <= i < |pieces| && pieces[i].off <= b
      decreases |pieces| - i
    {
      i := i + 1;
    }
    forall j | 0 <= j < |pieces| && In(pieces[j], b) ensures j == i {
      if j < i { Ordered(pieces, off, len, j, i); } else if i < j { Ordered(pieces, off, len, i, j); }
    }
  }

  predicate In(p: Piece, b: nat) {
    p.off <= b < p.off + p.len
  }

  lemma {:induction false} Ordered(pieces: seq<Piece>, off: nat, len: nat, i: nat, j: nat)
    requires Tiles(pieces, off, len) && i < j < |pieces|
    ensures pieces[i].off + pieces[i].len <= pieces[j].off
  {
    if i + 1 < j { Ordered(pieces, off, len, i, j - 1); }
    assert pieces[j - 1 + 1].off == pieces[j - 1].off + pieces[j - 1].len;
  }

  // ----- userfs_file_write -----

  /** The bytes up to the first block boundary at or after `off`. */
  function Head(off: nat): (r: nat)
    ensures r < BLOCK && (off + r) % BLOCK == 0 && off + r == Align(off)
  {
    Align(off) - off
  }

  /** The bytes after the last block boundary at or before `end`. */
  function Tail(end: nat): (r: nat)
    ensures r < BLOCK && r <= end && (end - r) % BLOCK == 0
  {
    var gap := Align(end) - end;
    if gap > 0 then BLOCK - gap else 0
  }

  lemma {:induction false} HeadSmall(off: nat, len: nat)
    requires 0 < len <= Head(off)
    ensures Small(Piece(off, 0, len))
  {
  }

  /** The boundaries of a range that reaches the first one are in order. */
  lemma {:induction false} Between(off: nat, n: nat)
    requires Head(off) <= n
    ensures Head(off) + Tail(off + n) <= n && (n - Head(off) - Tail(off + n)) % BLOCK == 0
  {
  }

  /** The three sizes of a write: up to the first block boundary, whole blocks, and the rest. */
  method WriteSizes(off: nat, n: nat) returns (pre: nat, mid: nat, post: nat)
    ensures pre + mid + post == n && pre < BLOCK && post < BLOCK && OnBlock(mid)
    ensures pre > 0 ==> Small(Piece(off, 0, pre))
    ensures mid > 0 || post > 0 ==> OnBlock(off + pre)
  {
    hide Align, Small, Head, Tail;
    var end := off + n;
    var aligned := Align(off);
    HeadIs(off);
    if end < aligned {
      pre, mid, post := n, 0, 0;
    } else {
      pre := if off < aligned then aligned - off else 0;
      post := Align(end) - end;
      if post > 0 {
        post := BLOCK - post;
      }
      TailIs(end);
      Between(off, n);
      mid := n - pre - post;
    }
    if pre > 0 { HeadSmall(off, pre); }
  }

  lemma {:induction false} HeadIs(off: nat)
    ensures Head(off) == Align(off) - off
  {
  }

  lemma {:induction false} TailIs(end: nat)
    ensures Tail(end) == if Align(end) - end > 0 then BLOCK - (Align(end) - end) else 0
  {
  }

  /** The next 2 MiB boundary after `off`. */
  function Boundary(off: nat): nat {
    (off + LARGE) - (off + LARGE) % LARGE
  }

  /** The size of the next aligned piece, in a 32-bit word: what is left, at most 2 MiB, not beyond the next 2 MiB
      boundary. It is 0 exactly when the word is. */
  function NextSize(off: nat, left: nat): (io: nat)
    requires OnBlock(off) && OnBlock(left)
    ensures io <= left % U32 && (io == 0 <==> left % U32 == 0)
    ensures io > 0 ==> OnBlock(left - io) && OnBlock(off + io) && Whole(Piece(off, 0, io)) && InLarge(Piece(off, 0, io))
  {
    var word := left % U32;
    var most := if word > LARGE then LARGE else word;
    var upper := Boundary(off);
    NextLarge(off, upper);
    WordOnBlock(left);
    var io := if off + most >= upper then upper - off else most;
    if io > 0 then Inside(off, upper, left, io); io else io
  }

  /** It is the largest piece allowed: every other one that starts here, keeps to what is left and stays within its
      2 MiB unit is no longer. */
  lemma {:induction false} LargestPiece(off: nat, left: nat, m: nat)
    requires OnBlock(off) && OnBlock(left) && 0 < m <= left % U32 && InLarge(Piece(off, 0, m))
    ensures m <= NextSize(off, left)
  {
    hide OnBlock, Whole;
    NextLarge(off, Boundary(off));
    UpToBoundary(off, m);
  }

  lemma {:induction false} UpToBoundary(off: nat, m: nat)
    requires m > 0 && InLarge(Piece(off, 0, m))
    ensures off + m <= Boundary(off) && m <= LARGE
  {
  }

  lemma {:induction false} WordOnBlock(left: nat)
    requires OnBlock(left)
    ensures OnBlock(left % U32) && OnBlock(LARGE) && left % U32 <= left
  {
  }

  /** The next 2 MiB boundary. */
  lemma {:induction false} NextLarge(off: nat, upper: nat)
    requires upper == Boundary(off) && OnBlock(off)
    ensures off < upper <= off + LARGE && OnBlock(upper - off) && upper / LARGE == off / LARGE + 1 && upper % LARGE == 0
  {
  }

  lemma {:induction false} Inside(off: nat, upper: nat, left: nat, io: nat)
    requires off < upper && OnBlock(off) && OnBlock(left) && OnBlock(upper - off) && upper / LARGE == off / LARGE + 1
    requires upper % LARGE == 0 && 0 < io <= left && off + io <= upper && OnBlock(io)
    ensures OnBlock(left - io) && OnBlock(off + io) && Whole(Piece(off, 0, io)) && InLarge(Piece(off, 0, io))
  {
    SameLarge(off, upper, off + io - 1);
    BlockSums(off, left, io);
  }

  lemma {:induction false} SameLarge(off: nat, upper: nat, x: nat)
    requires off <= x < upper && upper / LARGE == off / LARGE + 1 && upper % LARGE == 0
    ensures x / LARGE == off / LARGE
  {
    var q := off / LARGE;
    assert upper == (q + 1) * LARGE && q * LARGE <= off;
  }

  lemma {:induction false} BlockSums(off: nat, left: nat, io: nat)
    requires OnBlock(off) && OnBlock(left) && OnBlock(io) && io <= left
    ensures OnBlock(left - io) && OnBlock(off + io)
  {
  }

  // ----- When the loop ends -----

  /** What is left after `k` turns of the loop, each piece fully transferred. */
  function LeftAfter(off: nat, left: nat, k: nat): (r: nat)
    requires OnBlock(off) && OnBlock(left)
    decreases k
  {
    if k == 0 then left
    else
      var io := NextSize(off, left);
      if io == 0 then LeftAfter(off, left, k - 1) else LeftAfter(off + io, left - io, k - 1)
  }

  /** What is left never goes below the full multiples of 2^32. */
  lemma {:induction false} FullWordsStay(off: nat, left: nat, k: nat, q: nat)
    requires OnBlock(off) && OnBlock(left) && q * U32 <= left
    ensures LeftAfter(off, left, k) >= q * U32
    decreases k
  {
    hide OnBlock, Whole, InLarge, NextSize;
    if k > 0 {
      var io := NextSize(off, left);
      WordAbove(left, q);
      if io == 0 { FullWordsStay(off, left, k - 1, q); } else { FullWordsStay(off + io, left - io, k - 1, q); }
    }
  }

  lemma {:induction false} WordAbove(left: nat, q: nat)
    requires q * U32 <= left
    ensures left - left % U32 >= q * U32
  {
  }

  /** The part of `x` above its low 32 bits. */
  function FullWords(x: nat): (r: nat)
    ensures r <= x
  {
    x / U32 * U32
  }

  /** A piece leaves it alone. */
  lemma {:induction false} PieceLeaves(mid: nat, left: nat, io: nat)
    requires FullWords(mid) <= left && io <= left % U32
    ensures FullWords(mid) <= left - io
  {
    WordAbove(left, mid / U32);
  }

  lemma {:induction false} EndsBelow(off: nat, left: nat) returns (k: nat)
    requires OnBlock(off) && OnBlock(left) && left < U32
    ensures LeftAfter(off, left, k) == 0
    decreases left
  {
    hide OnBlock, Whole, InLarge, NextSize;
    k := 0;
    if left > 0 {
      var io := NextSize(off, left);
      var j := EndsBelow(off + io, left - io);
      k := j + 1;
    }
  }

  /** With full transfers the loop ends if and only if the aligned middle is below 2^32 bytes. */
  lemma {:induction false} LoopEndsExactly(off: nat, left: nat)
    requires OnBlock(off) && OnBlock(left)
    ensures (exists k: nat :: LeftAfter(off, left, k) == 0) <==> left < U32
  {
    if left < U32 {
      var k := EndsBelow(off, left);
    } else {
      forall k: nat ensures LeftAfter(off, left, k) != 0 { FullWordsStay(off, left, k, 1); }
    }
  }

  /** A write of 2^32 bytes at offset 0: no turn of the loop makes any progress. */
  lemma {:induction false} StuckAtOnce(k: nat)
    ensures OnBlock(0) && OnBlock(U32) && LeftAfter(0, U32, k) == U32
  {
    if k > 0 { StuckAtOnce(k - 1); }
  }

  class File {
    var off: nat
    var size: nat

    /** userfs_file_write, with each piece fully transferred. The first piece and the last stay inside one block, the
        others are whole blocks inside one 2 MiB unit, each as long as can be. `ends` is false when the loop comes to a
        turn that writes nothing and changes nothing, which it then repeats for ever. */
    method Write(n: nat) returns (ends: bool, pieces: seq<Piece>, ghost pre: nat, ghost post: nat)
      requires off + n + LARGE < U64
      modifies this
      ensures pre + post <= n && pre < BLOCK && post < BLOCK && OnBlock(n - pre - post)
      ensures forall i :: 0 <= i < |pieces| ==> WritePiece(pieces[i], old(off), n, pre, post)
      ensures ends <==> n - pre - post < U32
      ensures ends ==> Tiles(pieces, old(off), n) && off == old(off) + n
      ensures size == if off > old(off) && off > old(size) then off else old(size)
      ensures !ends ==> var left := FullWords(n - pre - post);
        && left > 0 && off == old(off) + n - post - left && Tiles(pieces, old(off), n - post - left)
        && OnBlock(off) && OnBlock(left) && NextSize(off, left) == 0
    {
      hide Align, Tiles, Small, Whole, InLarge, WritePiece, OnBlock, NextSize, FullWords, NextPiece,
        Written;
      var start := off;
      ghost var size0 := size;
      var a, mid, c := WriteSizes(off, n);
      pre, post, ends := a, c, true;
      pieces := [];
      NothingWritten(start, n, a, c, size);
      var i := 0;
      if a > 0 {
        HeadPiece(start, n, a, c);
        WrittenNext(pieces, start, n, a, c, i, a, size0, size);
        pieces := pieces + [Piece(off, 0, a)];
        if off + a > size {
          size := off + a;
        }
        off := off + a;
        i := i + a;
      }
      while i < n - c
        invariant a <= i <= n - c && off == start + i && Written(pieces, start, n, a, c, i, size0, size)
        invariant OnBlock(n - c - i) && (mid > 0 || c > 0 ==> OnBlock(off)) && FullWords(mid) <= n - c - i
        decreases n - i
      {
        var io := NextSize(off, n - c - i);
        Turn(start, n, a, c, mid, i);
        if io == 0 {
          WrittenIs(pieces, start, n, a, c, i, size0, size);
          ends := false;
          return;
        }
        WrittenNext(pieces, start, n, a, c, i, io, size0, size);
        pieces := pieces + [Piece(off, i, io)];
        if off + io > size {
          size := off + io;
        }
        off := off + io;
        i := i + io;
      }
      if c > 0 {
        LastPiece(start, n, a, c, i);
        WrittenNext(pieces, start, n, a, c, i, c, size0, size);
        pieces := pieces + [Piece(off, i, c)];
        if off + c > size {
          size := off + c;
        }
        off := off + c;
        i := i + c;
      }
      FewWords(mid);
      WrittenIs(pieces, start, n, a, c, i, size0, size);
    }
  }

  /** What the loops keep: the pieces so far tile the first `i` bytes, and the file has grown to hold them. */
  ghost predicate Written(pieces: seq<Piece>, start: nat, n: nat, pre: nat, post: nat, i: nat, size0: nat, size: nat) {
    && Tiles(pieces, start, i) && (forall k :: 0 <= k < |pieces| ==> WritePiece(pieces[k], start, n, pre, post))
    && size == if i > 0 && start + i > size0 then start + i else size0
  }

  /** One turn of the loop over the aligned middle. */
  lemma {:induction false} Turn(start: nat, n: nat, pre: nat, post: nat, mid: nat, i: nat)
    requires pre + mid + post == n && pre <= i < n - post
    requires OnBlock(start + i) && OnBlock(n - post - i) && FullWords(mid) <= n - post - i
    ensures var left, io := n - post - i, NextSize(start + i, n - post - i);
      && io <= left && FullWords(mid) <= left - io
      && if io == 0 then mid >= U32 && left == FullWords(mid)
         else OnBlock(left - io) && OnBlock(start + i + io) && WritePiece(Piece(start + i, i, io), start, n, pre, post)
  {
    hide OnBlock, NextSize, FullWords, WritePiece, Whole, InLarge;
    var left, io := n - post - i, NextSize(start + i, n - post - i);
    WordBelow(left);
    PieceLeaves(mid, left, io);
    if io == 0 {
      WordsLeft(mid, left);
    } else {
      Shifted(start + i, i, io);
      MiddlePiece(start, n, pre, post, i, io);
    }
  }

  lemma {:induction false} WordBelow(left: nat)
    ensures left % U32 <= left
  {
  }

  lemma {:induction false} NothingWritten(start: nat, n: nat, pre: nat, post: nat, size: nat)
    ensures Written([], start, n, pre, post, 0, size, size)
  {
    NoPieces(start);
  }

  lemma {:induction false} WrittenNext(pieces: seq<Piece>, start: nat, n: nat, pre: nat, post: nat, i: nat, len: nat,
    size0: nat, size: nat)
    requires Written(pieces, start, n, pre, post, i, size0, size) && len > 0
    requires WritePiece(Piece(start + i, i, len), start, n, pre, post)
    ensures Written(pieces + [Piece(start + i, i, len)], start, n, pre, post, i + len, size0,
                    if start + i + len > size then start + i + len else size)
  {
    hide WritePiece, Tiles;
    TilesNext(pieces, start, i, len);
  }

  lemma {:induction false} WrittenIs(pieces: seq<Piece>, start: nat, n: nat, pre: nat, post: nat, i: nat, size0: nat,
    size: nat)
    requires Written(pieces, start, n, pre, post, i, size0, size)
    ensures Tiles(pieces, start, i) && (forall k :: 0 <= k < |pieces| ==> WritePiece(pieces[k], start, n, pre, post))
    ensures size == if i > 0 && start + i > size0 then start + i else size0
  {
  }

  lemma {:induction false} FewWords(mid: nat)
    ensures FullWords(mid) == 0 <==> mid < U32
  {
  }

  /** What is left when the word is 0 is all the full multiples of 2^32. */
  lemma {:induction false} WordsLeft(mid: nat, left: nat)
    requires 0 < left <= mid && left % U32 == 0 && FullWords(mid) <= left
    ensures mid >= U32 && left == FullWords(mid)
  {
  }

  /** The unaligned head, the unaligned tail, or whole blocks. */
  predicate WritePiece(p: Piece, start: nat, n: nat, pre: nat, post: nat) {
    if p.off == start && pre > 0 then Small(p) && p.len == pre
    else if p.off + p.len == start + n && post > 0 then Small(p) && p.off % BLOCK == 0
    else Whole(p) && InLarge(p) && NextPiece(p, start + n - post)
  }

  /** As long as the code makes a piece that starts there. */
  predicate NextPiece(p: Piece, end: int) {
    p.off <= end && OnBlock(p.off) && OnBlock(end - p.off) && p.len == NextSize(p.off, end - p.off)
  }

  lemma {:induction false} NoPieces(off: nat)
    ensures Tiles([], off, 0)
  {
  }

  lemma {:induction false} Shifted(off: nat, at: nat, len: nat)
    requires Whole(Piece(off, 0, len)) && InLarge(Piece(off, 0, len))
    ensures Whole(Piece(off, at, len)) && InLarge(Piece(off, at, len))
  {
  }

  lemma {:induction false} HeadPiece(start: nat, n: nat, pre: nat, post: nat)
    requires pre > 0 && Small(Piece(start, 0, pre))
    ensures WritePiece(Piece(start, 0, pre), start, n, pre, post)
  {
  }

  lemma {:induction false} MiddlePiece(start: nat, n: nat, pre: nat, post: nat, i: nat, io: nat)
    requires pre <= i && i + io <= n - post && Whole(Piece(start + i, i, io)) && InLarge(Piece(start + i, i, io))
    requires OnBlock(start + i) && OnBlock(n - post - i) && io == NextSize(start + i, n - post - i)
    ensures WritePiece(Piece(start + i, i, io), start, n, pre, post)
  {
    hide OnBlock, NextSize;
    assert start + n - post - (start + i) == n - post - i;
  }

  lemma {:induction false} LastPiece(start: nat, n: nat, pre: nat, post: nat, i: nat)
    requires pre <= i && i + post == n && 0 < post < BLOCK && OnBlock(start + i)
    ensures WritePiece(Piece(start + i, i, post), start, n, pre, post)
  {
  }

  // ----- readi -----

  /** The four sizes of a read. */
  method ReadSizes(off: nat, n: nat) returns (small: nat, pre: nat, mid: nat, post: nat)
    ensures small + pre + mid + post == n && (small > 0 ==> pre == mid == post == 0)
    ensures small < BLOCK && pre < BLOCK && post < BLOCK && mid % BLOCK == 0
    ensures small > 0 ==> Small(Piece(off, 0, small))
    ensures pre > 0 ==> Small(Piece(off, 0, pre))
    ensures mid > 0 || post > 0 ==> (off + pre) % BLOCK == 0
  {
    hide Align, Small, Head, Tail;
    small, pre, mid, post := 0, 0, 0, 0;
    HeadIs(off);
    var end, aligned := off + n, Align(off);
    if aligned == off && end == Align(end) {
      mid := n;
    } else if (aligned == off && n < BLOCK) || end < aligned {
      small := n;
      if small > 0 { SmallRange(off, n); }
    } else {
      if off < aligned {
        pre := aligned - off;
      }
      post := Align(end) - end;
      if post > 0 {
        post := BLOCK - post;
      }
      TailIs(end);
      Between(off, n);
      mid := n - pre - post;
      if pre > 0 { HeadSmall(off, pre); }
    }
  }

  lemma {:induction false} SmallRange(off: nat, n: nat)
    requires n > 0 && ((Align(off) == off && n < BLOCK) || off + n < Align(off))
    ensures Small(Piece(off, 0, n))
  {
  }

  /** A part of one block, or whole blocks. */
  predicate ReadPiece(p: Piece) {
    Small(p) || Whole(p)
  }

  /** readi: the pieces tile the request clipped to the size of the file. */
  method Read(fileSize: nat, off: nat, n: nat) returns (pieces: seq<Piece>, ret: nat)
    requires off < fileSize < U64 && n < U32 && off + n < U64
    ensures ret == if off + n > fileSize then fileSize - off else n
    ensures Tiles(pieces, off, ret) && |pieces| <= 3
    ensures forall i :: 0 <= i < |pieces| ==> ReadPiece(pieces[i])
  {
    hide Align, Tiles, Small, Whole, ReadPiece;
    var io := if off + n > fileSize then fileSize - off else n;
    var small, pre, mid, post := ReadSizes(off, io);
    pieces, ret := [], 0;
    NoPieces(off);
    if small > 0 {
      TilesNext(pieces, off, ret, small);
      SmallRead(off + ret, ret, small);
      pieces := pieces + [Piece(off + ret, ret, small)];
      ret := ret + small;
    }
    if pre > 0 {
      TilesNext(pieces, off, ret, pre);
      SmallRead(off + ret, ret, pre);
      pieces := pieces + [Piece(off + ret, ret, pre)];
      ret := ret + pre;
    }
    if mid > 0 {
      TilesNext(pieces, off, ret, mid);
      WholeRead(off + ret, ret, mid);
      pieces := pieces + [Piece(off + ret, ret, mid)];
      ret := ret + mid;
    }
    if post > 0 {
      TilesNext(pieces, off, ret, post);
      TailRead(off + ret, ret, post);
      pieces := pieces + [Piece(off + ret, ret, post)];
      ret := ret + post;
    }
  }

  lemma {:induction false} SmallRead(off: nat, at: nat, len: nat)
    requires Small(Piece(off, 0, len))
    ensures ReadPiece(Piece(off, at, len))
  {
  }

  lemma {:induction false} WholeRead(off: nat, at: nat, len: nat)
    requires off % BLOCK == 0 && len > 0 && len % BLOCK == 0
    ensures ReadPiece(Piece(off, at, len)) && (off + len) % BLOCK == 0
  {
  }

  lemma {:induction false} TailRead(off: nat, at: nat, len: nat)
    requires off % BLOCK == 0 && 0 < len < BLOCK
    ensures ReadPiece(Piece(off, at, len))
  {
  }
}

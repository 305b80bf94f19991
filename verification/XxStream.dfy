/** The part that XXH32 and XXH64 share: four accumulators fed with stripes of 16 or 32 bytes, and a buffer for the
    bytes that do not yet fill a stripe. */
module XxStream {
  import opened XxWords

  datatype Acc<W> = Acc(v1: W, v2: W, v3: W, v4: W)

  /** Bytes of a stripe, and what one stripe does to the accumulators. */
  datatype Algo<!W> = Algo(size: nat, step: (Acc<W>, seq<Byte>) -> Acc<W>)

  /** The accumulators after all full stripes of `data`. */
  ghost function Stripes<W>(a: Algo<W>, acc: Acc<W>, data: seq<Byte>): Acc<W>
    requires a.size > 0
    decreases |data|
  {
    if |data| < a.size then acc else Stripes(a, a.step(acc, data[..a.size]), data[a.size..])
  }

  /** The bytes after the last full stripe. */
  ghost function Rest<W>(a: Algo<W>, data: seq<Byte>): (r: seq<Byte>)
    requires a.size > 0
    ensures |r| < a.size && |r| <= |data|
    decreases |data|
  {
    if |data| < a.size then data else Rest(a, data[a.size..])
  }

  /** Hashing may stop after any prefix and go on from what it left. */
  lemma {:induction false} Resume<W>(a: Algo<W>, acc: Acc<W>, data: seq<Byte>, more: seq<Byte>)
    requires a.size > 0
    ensures Stripes(a, acc, data + more) == Stripes(a, Stripes(a, acc, data), Rest(a, data) + more)
    ensures Rest(a, data + more) == Rest(a, Rest(a, data) + more)
    decreases |data|
  {
    if |data| >= a.size {
      assert (data + more)[..a.size] == data[..a.size];
      assert (data + more)[a.size..] == data[a.size..] + more;
      Resume(a, a.step(acc, data[..a.size]), data[a.size..], more);
    }
  }

  lemma {:induction false} OneStripe<W>(a: Algo<W>, acc: Acc<W>, data: seq<Byte>)
    requires a.size > 0 && |data| >= a.size
    ensures Stripes(a, acc, data) == Stripes(a, a.step(acc, data[..a.size]), data[a.size..])
    ensures Rest(a, data) == Rest(a, data[a.size..])
  {
  }

  lemma {:induction false} NoStripe<W>(a: Algo<W>, acc: Acc<W>, data: seq<Byte>)
    requires a.size > 0 && |data| < a.size
    ensures Stripes(a, acc, data) == acc && Rest(a, data) == data
  {
  }

  /** The do-while loop over full stripes, from byte `from` on. */
  method Consume<W>(a: Algo<W>, acc: Acc<W>, input: seq<Byte>, from: nat) returns (acc': Acc<W>, p: nat)
    requires a.size > 0 && from <= |input|
    ensures from <= p <= |input| && acc' == Stripes(a, acc, input[from..]) && input[p..] == Rest(a, input[from..])
  {
    hide Stripes, Rest;
    acc', p := acc, from;
    while p + a.size <= |input|
      invariant from <= p <= |input|
      invariant Stripes(a, acc', input[p..]) == Stripes(a, acc, input[from..])
      invariant Rest(a, input[p..]) == Rest(a, input[from..])
    {
      Slide(input, p, a.size);
      OneStripe(a, acc', input[p..]);
      acc' := a.step(acc', input[p..p + a.size]);
      p := p + a.size;
    }
    NoStripe(a, acc', input[p..]);
  }

  lemma {:induction false} Slide(s: seq<Byte>, p: nat, n: nat)
    requires p + n <= |s|
    ensures s[p..][..n] == s[p..p + n] && s[p..][n..] == s[p + n..]
  {
  }

  /** The accumulators and the buffer; the bytes of the buffer past `memsize` are stale. */
  datatype Feed<W> = Feed(acc: Acc<W>, mem: seq<Byte>, memsize: nat)

  ghost predicate Fed<W>(a: Algo<W>, f: Feed<W>, start: Acc<W>, seen: seq<Byte>) {
    && a.size > 0 && |f.mem| == a.size && f.memsize < a.size
    && f.acc == Stripes(a, start, seen) && f.mem[..f.memsize] == Rest(a, seen)
  }

  /** memcpy of `bytes` to offset `at` */
  function Copy(mem: seq<Byte>, at: nat, bytes: seq<Byte>): (r: seq<Byte>)
    requires at + |bytes| <= |mem|
    ensures |r| == |mem| && r[..at] == mem[..at] && r[at..at + |bytes|] == bytes
    ensures r[..at + |bytes|] == mem[..at] + bytes
  {
    mem[..at] + bytes + mem[at + |bytes|..]
  }

  /** The body of XXH32_update and XXH64_update after the length is counted. */
  method Update<W>(a: Algo<W>, f: Feed<W>, input: seq<Byte>, ghost start: Acc<W>, ghost seen: seq<Byte>)
    returns (f': Feed<W>)
    requires Fed(a, f, start, seen)
    ensures Fed(a, f', start, seen + input)
  {
    hide Stripes, Rest, Copy;
    ghost var held := f.mem[..f.memsize];
    Resume(a, start, seen, input);
    if f.memsize + |input| < a.size {
      f' := f.(mem := Copy(f.mem, f.memsize, input), memsize := f.memsize + |input|);
      NoStripe(a, f.acc, held + input);
      return;
    }
    f' := f;
    var p := 0;
    if f.memsize != 0 {
      var need := a.size - f.memsize;
      f' := f'.(mem := Copy(f.mem, f.memsize, input[..need]));
      FillStripe(held, input, need);
      OneStripe(a, f.acc, held + input);
      assert f'.mem == f'.mem[..f.memsize + need];
      f' := f'.(acc := a.step(f.acc, f'.mem), memsize := 0);
      p := need;
    } else {
      assert held + input == input[p..];
    }
    assert Stripes(a, f'.acc, input[p..]) == Stripes(a, f.acc, held + input);
    var acc, q := Consume(a, f'.acc, input, p);
    f' := f'.(acc := acc);
    if q < |input| {
      f' := f'.(mem := Copy(f'.mem, 0, input[q..]), memsize := |input| - q);
    }
    assert f'.mem[..f'.memsize] == input[q..];
  }

  lemma {:induction false} FillStripe(held: seq<Byte>, input: seq<Byte>, need: nat)
    requires need <= |input|
    ensures (held + input)[..|held| + need] == held + input[..need]
    ensures (held + input)[|held| + need..] == input[need..]
  {
  }
}

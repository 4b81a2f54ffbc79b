/**
  The incremental byte-pattern detector used on the daemon's output streams.

  The searcher keeps one counter, the number of pattern bytes matched so far,
  and advances or resets it one byte at a time. A byte that does not match
  `pattern[count]` resets the counter to zero and is NOT compared again with
  `pattern[0]`: this naive restart is modelled as written.
*/
module StreamSearching {
  import opened Optional

  /** A signed JVM byte. */
  newtype Byte = b: int | -128 <= b < 128

  /** The bytes of "Daemon is ready" (the daemon's readiness marker on stdout). */
  const ReadyMarker: seq<Byte> :=
    [68, 97, 101, 109, 111, 110, 32, 105, 115, 32, 114, 101, 97, 100, 121]

  /** The bytes of "BlockService GetBlock:" (the activity marker on stderr). */
  const ActivityMarker: seq<Byte> :=
    [66, 108, 111, 99, 107, 83, 101, 114, 118, 105, 99, 101, 32,
     71, 101, 116, 66, 108, 111, 99, 107, 58]

  /** True when byte `b`, fed while `c` bytes are matched, completes an occurrence. */
  predicate Completes(p: seq<Byte>, c: nat, b: Byte)
    requires c < |p|
  {
    p[c] == b && c + 1 == |p|
  }

  /** The matched count after feeding byte `b` while `c` bytes are matched. */
  function Step(p: seq<Byte>, c: nat, b: Byte): (r: nat)
    requires c < |p|
    ensures r < |p|
    ensures r != 0 ==> p[c] == b && r == c + 1
    ensures p[c] == b && c + 1 < |p| ==> r == c + 1
    ensures p[c] != b ==> r == 0
    ensures Completes(p, c, b) ==> r == 0
  {
    if p[c] == b then (if c + 1 >= |p| then 0 else c + 1) else 0
  }

  /** The matched count after feeding all of `bs`, starting from count `c`. */
  function Run(p: seq<Byte>, c: nat, bs: seq<Byte>): (r: nat)
    requires c < |p|
    ensures r < |p|
    ensures r <= c + |bs|
    decreases |bs|
  {
    if bs == [] then c else Run(p, Step(p, c, bs[0]), bs[1..])
  }

  /** The index in `bs` of the first byte that completes an occurrence, if any. */
  function FirstMatch(p: seq<Byte>, c: nat, bs: seq<Byte>): (r: Option<nat>)
    requires c < |p|
    ensures r.Some? ==> r.value < |bs|
    decreases |bs|
  {
    if bs == [] then None
    else if Completes(p, c, bs[0]) then Some(0)
    else match FirstMatch(p, Step(p, c, bs[0]), bs[1..])
      case None => None
      case Some(i) => Some(i + 1)
  }

  /** Moves a match index found in a later chunk past the `n` bytes before it. */
  function Shift(m: Option<nat>, n: nat): Option<nat>
  {
    match m
    case None => None
    case Some(i) => Some(i + n)
  }

  /** The bytes `s[offset..offset+length)`, empty when `length <= 0`. */
  function Slice(s: seq<Byte>, offset: int, length: int): (r: seq<Byte>)
    requires length <= 0 || (0 <= offset && offset + length <= |s|)
    ensures |r| == if length <= 0 then 0 else length
    ensures forall k :: 0 <= k < |r| ==> r[k] == s[offset + k]
  {
    if length <= 0 then [] else s[offset..offset + length]
  }

  /**
    The bytes a call consumes: a prefix of the chunk that ends at the first
    completing byte, or the whole chunk when none completes
    (`ConsumedKeepsFirstMatch` shows the prefix holds the chunk's first match).
  */
  function Consumed(p: seq<Byte>, c: nat, bs: seq<Byte>): (r: seq<Byte>)
    requires c < |p|
    ensures |r| <= |bs| && r == bs[..|r|]
    ensures FirstMatch(p, c, bs).None? ==> r == bs
    ensures FirstMatch(p, c, bs).Some? ==> |r| == FirstMatch(p, c, bs).value + 1
  {
    match FirstMatch(p, c, bs)
    case None =>
      assert bs[..|bs|] == bs;
      bs
    case Some(i) => bs[..i + 1]
  }

  /** The consumed prefix holds the same first match as the whole chunk. */
  lemma ConsumedKeepsFirstMatch(p: seq<Byte>, c: nat, bs: seq<Byte>)
    requires c < |p|
    ensures FirstMatch(p, c, Consumed(p, c, bs)) == FirstMatch(p, c, bs)
  {
    if FirstMatch(p, c, bs).Some? {
      var i := FirstMatch(p, c, bs).value;
      assert bs == bs[..i + 1] + bs[i + 1..];
      FirstMatchAppend(p, c, bs[..i + 1], bs[i + 1..]);
    }
  }

  /** Feeding two chunks one after the other ends at the same count as feeding them joined. */
  lemma {:induction false} RunAppend(p: seq<Byte>, c: nat, a: seq<Byte>, b: seq<Byte>)
    requires c < |p|
    ensures Run(p, c, a + b) == Run(p, Run(p, c, a), b)
    decreases |a|
  {
    if a != [] {
      assert (a + b)[0] == a[0];
      assert (a + b)[1..] == a[1..] + b;
      RunAppend(p, Step(p, c, a[0]), a[1..], b);
    } else {
      assert a + b == b;
    }
  }

  /** Feeding one more byte is one more step. */
  lemma RunSnoc(p: seq<Byte>, c: nat, a: seq<Byte>, x: Byte)
    requires c < |p|
    ensures Run(p, c, a + [x]) == Step(p, Run(p, c, a), x)
  {
    RunAppend(p, c, a, [x]);
    assert [x][1..] == [];
  }

  /**
    Chunking does not matter: the first occurrence in a joined input is the first
    one in the first chunk, or else the first one in the second chunk (fed from
    the count the first chunk left), shifted by the first chunk's length.
  */
  lemma {:induction false} FirstMatchAppend(p: seq<Byte>, c: nat, a: seq<Byte>, b: seq<Byte>)
    requires c < |p|
    ensures FirstMatch(p, c, a + b) ==
      (if FirstMatch(p, c, a).Some? then FirstMatch(p, c, a)
       else Shift(FirstMatch(p, Run(p, c, a), b), |a|))
    decreases |a|
  {
    if a == [] {
      assert a + b == b;
    } else {
      assert (a + b)[0] == a[0];
      assert (a + b)[1..] == a[1..] + b;
      if !Completes(p, c, a[0]) {
        FirstMatchAppend(p, Step(p, c, a[0]), a[1..], b);
      }
    }
  }

  /** The counts reached inside `bs` are the counts reached inside `bs[1..]` after one step. */
  lemma PrefixRun(p: seq<Byte>, c: nat, bs: seq<Byte>, j: nat)
    requires c < |p| && 0 < j <= |bs|
    ensures Run(p, c, bs[..j]) == Run(p, Step(p, c, bs[0]), bs[1..][..j - 1])
  {
    assert bs[..j][0] == bs[0];
    assert bs[..j][1..] == bs[1..][..j - 1];
  }

  /** Predicate form of "no byte before index `i` completes the pattern". */
  ghost predicate NoCompletionBefore(p: seq<Byte>, c: nat, bs: seq<Byte>, i: nat)
    requires c < |p| && i <= |bs|
  {
    forall j :: 0 <= j < i ==> !Completes(p, Run(p, c, bs[..j]), bs[j])
  }

  /** FirstMatch names a completing byte with no completing byte before it. */
  lemma {:induction false} FirstMatchSound(p: seq<Byte>, c: nat, bs: seq<Byte>)
    requires c < |p| && FirstMatch(p, c, bs).Some?
    ensures var i := FirstMatch(p, c, bs).value;
      Completes(p, Run(p, c, bs[..i]), bs[i]) && NoCompletionBefore(p, c, bs, i)
    decreases |bs|
  {
    var i := FirstMatch(p, c, bs).value;
    assert bs[..0] == [];
    if i > 0 {
      var c' := Step(p, c, bs[0]);
      FirstMatchSound(p, c', bs[1..]);
      PrefixRun(p, c, bs, i);
      forall j | 0 <= j < i
        ensures !Completes(p, Run(p, c, bs[..j]), bs[j])
      {
        if j > 0 {
          PrefixRun(p, c, bs, j);
          assert bs[j] == bs[1..][j - 1];
        }
      }
    }
  }

  /** A completing byte with no completing byte before it is the one FirstMatch names. */
  lemma {:induction false} FirstMatchComplete(p: seq<Byte>, c: nat, bs: seq<Byte>, i: nat)
    requires c < |p| && i < |bs|
    requires Completes(p, Run(p, c, bs[..i]), bs[i]) && NoCompletionBefore(p, c, bs, i)
    ensures FirstMatch(p, c, bs) == Some(i)
    decreases |bs|
  {
    assert bs[..0] == [];
    if i > 0 {
      var c' := Step(p, c, bs[0]);
      assert !Completes(p, Run(p, c, bs[..0]), bs[0]);
      PrefixRun(p, c, bs, i);
      forall j | 0 <= j < i - 1
        ensures !Completes(p, Run(p, c', bs[1..][..j]), bs[1..][j])
      {
        PrefixRun(p, c, bs, j + 1);
        assert !Completes(p, Run(p, c, bs[..j + 1]), bs[j + 1]);
      }
      FirstMatchComplete(p, c', bs[1..], i - 1);
    }
  }

  /**
    An independent characterisation of FirstMatch: it names the byte at which
    the running count completes the pattern, and no earlier byte does so.
  */
  lemma FirstMatchIsFirst(p: seq<Byte>, c: nat, bs: seq<Byte>, i: nat)
    requires c < |p|
    ensures FirstMatch(p, c, bs) == Some(i) <==>
      i < |bs| && Completes(p, Run(p, c, bs[..i]), bs[i]) &&
      forall j :: 0 <= j < i ==> !Completes(p, Run(p, c, bs[..j]), bs[j])
  {
    if FirstMatch(p, c, bs) == Some(i) {
      FirstMatchSound(p, c, bs);
    } else if i < |bs| && Completes(p, Run(p, c, bs[..i]), bs[i]) && NoCompletionBefore(p, c, bs, i) {
      FirstMatchComplete(p, c, bs, i);
    }
  }

  /** The byte FirstMatch names completes the pattern at the count reached just before it. */
  lemma FirstMatchCompletes(p: seq<Byte>, c: nat, bs: seq<Byte>)
    requires c < |p| && FirstMatch(p, c, bs).Some?
    ensures Completes(p, Run(p, c, bs[..FirstMatch(p, c, bs).value]), bs[FirstMatch(p, c, bs).value])
  {
    FirstMatchSound(p, c, bs);
  }

  /**
    After any input fed from count 0, the last `count` bytes fed are exactly the
    first `count` bytes of the pattern.
  */
  lemma {:induction false} CountIsSuffix(p: seq<Byte>, bs: seq<Byte>)
    requires 0 < |p|
    ensures Run(p, 0, bs) <= |bs|
    ensures bs[|bs| - Run(p, 0, bs)..] == p[..Run(p, 0, bs)]
    decreases |bs|
  {
    if bs != [] {
      var a, x := bs[..|bs| - 1], bs[|bs| - 1];
      assert bs == a + [x];
      CountIsSuffix(p, a);
      RunSnoc(p, 0, a, x);
      var k := Run(p, 0, a);
      if Step(p, k, x) != 0 {
        assert bs[|bs| - (k + 1)..] == a[|a| - k..] + [x];
      }
    }
  }

  /**
    Soundness: a byte that completes an occurrence, fed after a history `h`
    from count 0, ends an exact copy of the pattern.
  */
  lemma CompletesSound(p: seq<Byte>, h: seq<Byte>, b: Byte)
    requires 0 < |p|
    requires Completes(p, Run(p, 0, h), b)
    ensures |h + [b]| >= |p| && (h + [b])[|h + [b]| - |p|..] == p
  {
    CountIsSuffix(p, h);
    var k := Run(p, 0, h);
    assert (h + [b])[|h + [b]| - |p|..] == h[|h| - k..] + [b];
  }

  /** Soundness on a whole input: a reported match ends an exact copy of the pattern. */
  lemma MatchSound(p: seq<Byte>, bs: seq<Byte>, i: nat)
    requires 0 < |p|
    requires FirstMatch(p, 0, bs) == Some(i)
    ensures |p| <= i + 1 && bs[i + 1 - |p|..i + 1] == p
  {
    FirstMatchCompletes(p, 0, bs);
    CompletesSound(p, bs[..i], bs[i]);
    assert bs[..i] + [bs[i]] == bs[..i + 1];
  }

  /** No occurrence can complete within fewer bytes than the pattern still needs. */
  lemma {:induction false} NoMatchInShortInput(p: seq<Byte>, c: nat, bs: seq<Byte>)
    requires c < |p| && c + |bs| < |p|
    ensures FirstMatch(p, c, bs) == None
    decreases |bs|
  {
    if bs != [] {
      NoMatchInShortInput(p, Step(p, c, bs[0]), bs[1..]);
    }
  }

  /** Completeness at a clean start: feeding the pattern from count `c` finds its end. */
  lemma {:induction false} FindsRestOfPattern(p: seq<Byte>, c: nat)
    requires c < |p|
    ensures FirstMatch(p, c, p[c..]) == Some(|p| - 1 - c)
    decreases |p| - c
  {
    if c + 1 < |p| {
      assert p[c..][1..] == p[c + 1..];
      FindsRestOfPattern(p, c + 1);
    }
  }

  /** The naive restart: an occurrence right after a one-byte false start is missed. */
  lemma FalseStartMissed(p: seq<Byte>)
    requires 2 <= |p| && p[1] != p[0]
    ensures ([p[0]] + p)[1..] == p
    ensures FirstMatch(p, 0, [p[0]] + p) == None
  {
    var s := [p[0]] + p;
    assert s[1..] == p;
    assert s[1..][1..] == p[1..];
    NoMatchInShortInput(p, 0, p[1..]);
  }

  /** "DDaemon is ready" never signals readiness, although it contains the marker. */
  lemma ReadyMarkerMissedAfterFalseStart()
    ensures ([68 as Byte] + ReadyMarker)[1..] == ReadyMarker
    ensures FirstMatch(ReadyMarker, 0, [68 as Byte] + ReadyMarker) == None
  {
    FalseStartMissed(ReadyMarker);
  }

  /**
    Only the first match is independent of chunking: a range call drops the
    bytes after its match. With pattern [1, 2], the chunks [1, 2, 1] and [2]
    report one match (the trailing 1 is dropped and the 2 starts afresh),
    while the chunks [1, 2] and [1, 2] report two.
  */
  lemma LaterMatchesDependOnChunking()
    ensures var p: seq<Byte> := [1, 2];
      FirstMatch(p, 0, [1, 2, 1]) == Some(1) && Consumed(p, 0, [1, 2, 1]) == [1, 2] &&
      Run(p, 0, [1, 2]) == 0 && FirstMatch(p, 0, [2]) == None
    ensures var p: seq<Byte> := [1, 2];
      FirstMatch(p, 0, [1, 2]) == Some(1) && Consumed(p, 0, [1, 2]) == [1, 2]
  {
  }

  /**
    A call that finds an occurrence leaves the count at 0 and the bytes it
    consumed end with an exact copy of the pattern.
  */
  lemma ConsumedEndsWithPattern(p: seq<Byte>, h: seq<Byte>, bs: seq<Byte>)
    requires 0 < |p|
    requires FirstMatch(p, Run(p, 0, h), bs).Some?
    ensures Run(p, Run(p, 0, h), Consumed(p, Run(p, 0, h), bs)) == 0
    ensures var f := h + Consumed(p, Run(p, 0, h), bs); |f| >= |p| && f[|f| - |p|..] == p
  {
    ConsumedResets(p, Run(p, 0, h), bs);
    ConsumedEndsOnPattern(p, h, bs);
  }

  /** A matching range leaves the count at 0. */
  lemma ConsumedResets(p: seq<Byte>, c: nat, bs: seq<Byte>)
    requires c < |p| && FirstMatch(p, c, bs).Some?
    ensures Run(p, c, Consumed(p, c, bs)) == 0
  {
    var i := FirstMatch(p, c, bs).value;
    ConsumedSplit(p, c, bs);
    FirstMatchCompletes(p, c, bs);
    CompletingByteResets(p, c, bs[..i], bs[i], Consumed(p, c, bs));
  }

  /** After history `h`, the bytes a matching range consumes end the history on the pattern. */
  lemma ConsumedEndsOnPattern(p: seq<Byte>, h: seq<Byte>, bs: seq<Byte>)
    requires 0 < |p| && FirstMatch(p, Run(p, 0, h), bs).Some?
    ensures var f := h + Consumed(p, Run(p, 0, h), bs); |f| >= |p| && f[|f| - |p|..] == p
  {
    var c := Run(p, 0, h);
    var i := FirstMatch(p, c, bs).value;
    ConsumedSplit(p, c, bs);
    FirstMatchCompletes(p, c, bs);
    CompletingByteEndsPattern(p, h, bs[..i], bs[i], Consumed(p, c, bs));
  }

  /** Feeding `pre` and then a byte that completes the pattern leaves the count at 0. */
  lemma CompletingByteResets(p: seq<Byte>, c: nat, pre: seq<Byte>, x: Byte, fed: seq<Byte>)
    requires c < |p| && fed == pre + [x]
    requires Completes(p, Run(p, c, pre), x)
    ensures Run(p, c, fed) == 0
  {
    RunSnoc(p, c, pre, x);
  }

  /** After history `h`, feeding `pre` and then a completing byte `x` ends on the pattern. */
  lemma CompletingByteEndsPattern(p: seq<Byte>, h: seq<Byte>, pre: seq<Byte>, x: Byte, fed: seq<Byte>)
    requires 0 < |p| && fed == pre + [x]
    requires Completes(p, Run(p, Run(p, 0, h), pre), x)
    ensures var f := h + fed; |f| >= |p| && f[|f| - |p|..] == p
  {
    RunAppend(p, 0, h, pre);
    CompletesSound(p, h + pre, x);
    assert h + fed == (h + pre) + [x];
  }

  /** The bytes a matching range consumes: the match-free prefix, then the completing byte. */
  lemma ConsumedSplit(p: seq<Byte>, c: nat, bs: seq<Byte>)
    requires c < |p| && FirstMatch(p, c, bs).Some?
    ensures var i := FirstMatch(p, c, bs).value; Consumed(p, c, bs) == bs[..i] + [bs[i]]
  {
    var i := FirstMatch(p, c, bs).value;
    var r := Consumed(p, c, bs);
    assert r == bs[..i + 1];
    assert bs[..i + 1] == bs[..i] + [bs[i]];
  }

  /** Feeding a match-free prefix and then one more byte, as the range loop does. */
  lemma ExtendNoMatch(p: seq<Byte>, c: nat, done: seq<Byte>, x: Byte)
    requires c < |p|
    requires FirstMatch(p, c, done) == None
    ensures Run(p, c, done + [x]) == Step(p, Run(p, c, done), x)
    ensures FirstMatch(p, c, done + [x]) ==
      if Completes(p, Run(p, c, done), x) then Some(|done|) else None
  {
    RunSnoc(p, c, done, x);
    FirstMatchAppend(p, c, done, [x]);
    assert [x][1..] == [];
  }

  /** A match-free prefix followed by a completing byte: the first match is that byte. */
  lemma StopAt(p: seq<Byte>, c: nat, bs: seq<Byte>, k: nat)
    requires c < |p| && k < |bs|
    requires FirstMatch(p, c, bs[..k]) == None
    requires Completes(p, Run(p, c, bs[..k]), bs[k])
    ensures FirstMatch(p, c, bs) == Some(k)
    ensures Consumed(p, c, bs) == bs[..k + 1]
  {
    assert bs == bs[..k] + bs[k..];
    FirstMatchAppend(p, c, bs[..k], bs[k..]);
    assert bs[k..][0] == bs[k];
  }

  /** One iteration of the range loop, fed after history `h` with no match so far. */
  lemma RangeStep(p: seq<Byte>, h: seq<Byte>, bs: seq<Byte>, k: nat)
    requires 0 < |p| && k < |bs|
    requires FirstMatch(p, Run(p, 0, h), bs[..k]) == None
    ensures Run(p, 0, h + bs[..k]) == Run(p, Run(p, 0, h), bs[..k])
    ensures h + bs[..k] + [bs[k]] == h + bs[..k + 1]
    ensures Completes(p, Run(p, 0, h + bs[..k]), bs[k]) ==>
      FirstMatch(p, Run(p, 0, h), bs).Some? &&
      Consumed(p, Run(p, 0, h), bs) == bs[..k + 1]
    ensures !Completes(p, Run(p, 0, h + bs[..k]), bs[k]) ==>
      FirstMatch(p, Run(p, 0, h), bs[..k + 1]) == None
  {
    var c := Run(p, 0, h);
    var pre, x := bs[..k], bs[k];
    RunAppend(p, 0, h, pre);
    assert bs[..k + 1] == pre + [x];
    ExtendNoMatch(p, c, pre, x);
    if Completes(p, Run(p, c, pre), x) {
      StopAt(p, c, bs, k);
    }
  }

  /** The range loop ran to the end without a match: everything was consumed. */
  lemma RangeEnd(p: seq<Byte>, h: seq<Byte>, bs: seq<Byte>, k: nat)
    requires 0 < |p| && k == |bs|
    requires FirstMatch(p, Run(p, 0, h), bs[..k]) == None
    ensures FirstMatch(p, Run(p, 0, h), bs) == None
    ensures Consumed(p, Run(p, 0, h), bs) == bs[..k]
    ensures Run(p, 0, h + bs[..k]) == Run(p, Run(p, 0, h), bs)
  {
    assert bs[..k] == bs;
    RunAppend(p, 0, h, bs);
  }

  /** The simple class that searches a stream for the occurrence of a byte string. */
  class StreamSearcher {
    /** The bytes being searched for. */
    const bytesToFind: seq<Byte>
    /** How many pattern bytes are matched so far. */
    var matchedCount: int
    /** Every byte this searcher has consumed, in order. */
    ghost var fed: seq<Byte>

    ghost predicate Valid()
      reads this
    {
      0 < |bytesToFind| &&
      0 <= matchedCount < |bytesToFind| &&
      matchedCount == Run(bytesToFind, 0, fed)
    }

    constructor (searchText: seq<Byte>)
      requires 0 < |searchText|
      ensures Valid()
      ensures bytesToFind == searchText && matchedCount == 0 && fed == []
    {
      bytesToFind := searchText;
      matchedCount := 0;
      fed := [];
    }

    /** Feeds one byte; true when it completes an occurrence. */
    method AddByte(b: Byte) returns (found: bool)
      requires Valid()
      modifies this
      ensures Valid()
      ensures fed == old(fed) + [b]
      ensures found == Completes(bytesToFind, old(matchedCount), b)
      ensures matchedCount == Step(bytesToFind, old(matchedCount), b)
      ensures found ==> matchedCount == 0
      ensures found ==> |fed| >= |bytesToFind| && fed[|fed| - |bytesToFind|..] == bytesToFind
    {
      RunSnoc(bytesToFind, 0, fed, b);
      if Completes(bytesToFind, matchedCount, b) {
        CompletesSound(bytesToFind, fed, b);
      }
      fed := fed + [b];
      if bytesToFind[matchedCount] == b {
        matchedCount := matchedCount + 1;
        if matchedCount >= |bytesToFind| {
          matchedCount := 0;
          return true;
        }
      } else {
        matchedCount := 0;
      }
      return false;
    }

    /**
      Feeds `data[offset..offset+length)` in order and stops at the first byte
      that completes an occurrence; the bytes after it are not consumed.
    */
    method AddRange(data: array<Byte>, offset: int, length: int) returns (found: bool)
      requires Valid()
      requires length <= 0 || (0 <= offset && offset + length <= data.Length)
      modifies this
      ensures Valid()
      ensures found == FirstMatch(bytesToFind, old(matchedCount), Slice(old(data[..]), offset, length)).Some?
      ensures fed == old(fed) + Consumed(bytesToFind, old(matchedCount), Slice(old(data[..]), offset, length))
      ensures found ==> matchedCount == 0
    {
      ghost var c0, f0 := matchedCount, fed;
      ghost var chunk := Slice(data[..], offset, length);
      var i := offset;
      while i < offset + length
        invariant offset <= i && i - offset <= |chunk|
        invariant Valid() && fed == f0 + chunk[..i - offset]
        invariant FirstMatch(bytesToFind, c0, chunk[..i - offset]) == None
      {
        assert chunk[i - offset] == data[i];
        RangeStep(bytesToFind, f0, chunk, i - offset);
        var hit := AddByte(data[i]);
        if hit {
          return true;
        }
        i := i + 1;
      }
      RangeEnd(bytesToFind, f0, chunk, i - offset);
      return false;
    }

    /** Feeds all of `data`; the same as feeding the range from 0 of full length. */
    method Add(data: array<Byte>) returns (found: bool)
      requires Valid()
      modifies this
      ensures Valid()
      ensures found == FirstMatch(bytesToFind, old(matchedCount), data[..]).Some?
      ensures fed == old(fed) + Consumed(bytesToFind, old(matchedCount), data[..])
      ensures found ==> matchedCount == 0
    {
      assert Slice(data[..], 0, data.Length) == data[..];
      found := AddRange(data, 0, data.Length);
    }
  }
}

/** The URL transfer handlers (server/lib/handlers/common.py): the file length
    comes from the item's single file, and `transfer` copies an input stream
    into the cache file 32 KiB at a time, reporting progress through the
    throttle of the handler base. */
module UrlHandlers {
  import opened Base
  import opened TmUtils
  import opened FileSystem

  /** `FileLikeUrlTransferHandler.BUFSZ`. */
  const BufSize: nat := 32768

  /** `UrlTransferHandler.__init__` takes the length from the `size` key of the
      item's single file; a missing key raises KeyError. */
  function FileLength(itemId: ItemId, files: seq<FileDoc>): (r: Result<nat>)
    ensures r.Ok? <==> |files| == 1 && files[0].size.Some?
    ensures r.Ok? ==> r.value == files[0].size.value
    ensures |files| != 1 ==> r == Err(GetFileFromItem(itemId, files).error)
    ensures |files| == 1 && files[0].size.None? ==> r == Err(KeyError("size"))
  {
    match GetFileFromItem(itemId, files)
    case Err(e) => Err(e)
    case Ok(file) =>
      match file.size
      case None => Err(KeyError("size"))
      case Some(n) => Ok(n)
  }

  /** The running byte counts `transferBytes` reports while copying `n` bytes
      when `done` are already copied: one count per buffer read, each a full
      buffer further, the last one `n`. */
  function ReadTotals(done: nat, n: nat): (r: seq<int>)
    ensures r == [] <==> done >= n
    ensures r != [] ==> r[|r| - 1] == n
    decreases n - done
  {
    if done >= n then []
    else
      var next := if done + BufSize < n then done + BufSize else n;
      [next] + ReadTotals(next, n)
  }

  /** Every count but the last is exactly one buffer past the previous one, so
      a file of `n` bytes is read in ceil(n / 32768) reads. */
  lemma {:induction false} ReadTotalsAreBufferSteps(done: nat, n: nat)
    ensures var r := ReadTotals(done, n);
      forall k :: 0 <= k < |r| - 1 ==> r[k] == done + (k + 1) * 32768
    ensures (|ReadTotals(done, n)| - 1) * 32768 < n - done || done >= n
    ensures n - done <= |ReadTotals(done, n)| * 32768
    decreases n - done
  {
    if done < n {
      var next := if done + BufSize < n then done + BufSize else n;
      ReadTotalsAreBufferSteps(next, n);
      var r := ReadTotals(done, n);
      var tail := ReadTotals(next, n);
      assert r == [next] + tail;
      if next == n {
        assert tail == [];
      } else {
        assert next == done + 32768;
        assert (|tail| - 1) * 32768 + 32768 == |tail| * 32768;
        assert |r| * 32768 == |tail| * 32768 + 32768;
        assert forall k :: 0 <= k < |r| - 1 ==> r[k] == done + (k + 1) * 32768 by {
          forall k | 0 <= k < |r| - 1
            ensures r[k] == done + (k + 1) * 32768
          {
            if k > 0 {
              assert r[k] == tail[k - 1];
            }
          }
        }
      }
    }
  }

  /** An input stream: `read(n)` returns the next bytes, at most `n` of them,
      and an empty buffer at the end. */
  class InputStream {
    var remaining: seq<byte>

    constructor(data: seq<byte>)
      ensures remaining == data
    {
      remaining := data;
    }

    method Read(n: nat) returns (buf: seq<byte>)
      modifies this
      ensures buf == old(remaining)[..if n < |old(remaining)| then n else |old(remaining)|]
      ensures remaining == old(remaining)[|buf|..]
    {
      var k := if n < |remaining| then n else |remaining|;
      buf := remaining[..k];
      remaining := remaining[k..];
    }
  }

  /** Every running count lies past `done` and within the file. */
  lemma {:induction false} ReadTotalsWithin(done: nat, n: nat)
    ensures forall k :: 0 <= k < |ReadTotals(done, n)| ==> done < ReadTotals(done, n)[k] <= n
    decreases n - done
  {
    if done < n {
      var next := if done + BufSize < n then done + BufSize else n;
      ReadTotalsWithin(next, n);
      var r := ReadTotals(done, n);
      assert r == [next] + ReadTotals(next, n);
      forall k | 0 <= k < |r|
        ensures done < r[k] <= n
      {
        if k > 0 {
          assert r[k] == ReadTotals(next, n)[k - 1];
        }
      }
    }
  }

  /** One buffer read advances the running count by the buffer size, or to
      the end. */
  lemma ReadTotalsStep(done: nat, n: nat, len: nat)
    requires done < n
    requires len == if done + 32768 < n then 32768 else n - done
    ensures ReadTotals(done, n) == [done + len] + ReadTotals(done + len, n)
  {
  }

  /** A read of one buffer after the first `crt` bytes returns the bytes
      that follow them: a full buffer, or the rest of the file. */
  lemma NextBuffer(data: seq<byte>, crt: nat, buf: seq<byte>)
    requires crt <= |data|
    requires buf == data[crt..][..if BufSize < |data[crt..]| then BufSize else |data[crt..]|]
    ensures crt + |buf| <= |data| && buf == data[crt..crt + |buf|]
    ensures |buf| == if crt + 32768 < |data| then 32768 else |data| - crt
    ensures data[crt..][|buf|..] == data[crt + |buf|..]
  {
  }

  /** The counts reported so far followed by those still to come are all
      the counts of the copy, before and after one more buffer. */
  lemma TotalsAdvance(totals: seq<int>, done: nat, n: nat, len: nat)
    requires done < n
    requires len == if done + 32768 < n then 32768 else n - done
    requires totals + ReadTotals(done, n) == ReadTotals(0, n)
    ensures (totals + [done + len]) + ReadTotals(done + len, n) == ReadTotals(0, n)
  {
    ReadTotalsStep(done, n, len);
    assert (totals + [done + len]) + ReadTotals(done + len, n) == totals + ([done + len] + ReadTotals(done + len, n));
  }

  /** Every count reported while copying lies within the file. */
  lemma CopyReportsWithinFile(flen: int, last0: int, n: nat)
    ensures var t := ThrottleRun(flen, last0, ReadTotals(0, n));
      forall k :: 0 <= k < |t.emitted| ==> 0 < t.emitted[k] <= n
  {
    var r := ReadTotals(0, n);
    var t := ThrottleRun(flen, last0, r);
    ThrottleEmitsFromInput(flen, last0, r);
    ReadTotalsWithin(0, n);
    forall k | 0 <= k < |t.emitted|
      ensures 0 < t.emitted[k] <= n
    {
      assert t.emitted[k] in r;
      var j :| 0 <= j < |r| && r[j] == t.emitted[k];
    }
  }

  /** `FileLikeUrlTransferHandler`: a handler base plus the source URL, writing
      to the cache disk. */
  class FileLikeUrlTransferHandler {
    const url: string
    const base: TransferHandler
    const disk: Disk

    constructor(url: string, base: TransferHandler, disk: Disk)
      ensures this.url == url && this.base == base && this.disk == disk
    {
      this.url := url;
      this.base := base;
      this.disk := disk;
    }

    /** `transfer`: announce (flen, 0) unthrottled, create or empty the cache
        file, then open the input and copy it. When the input cannot be opened
        the error propagates and the cache file is left empty. */
    method Transfer(input: Result<seq<byte>>) returns (r: Result<bool>)
      modifies base, disk
      ensures base.flen == old(base.flen)
      ensures input.Err? ==>
        && r == Err(input.error)
        && disk.files == old(disk.files)[base.psPath := []]
        && base.sent == old(base.sent) + [Progress(base.flen, 0)]
        && base.lastTransferred == old(base.lastTransferred)
      ensures input.Ok? ==>
        var t := ThrottleRun(base.flen, old(base.lastTransferred), ReadTotals(0, |input.value|));
        && r == Ok(true)
        && disk.files == old(disk.files)[base.psPath := input.value]
        && base.sent == old(base.sent) + [Progress(base.flen, 0)] + SentUpdates(base.flen, t.emitted)
        && base.lastTransferred == t.last
    {
      base.sent := base.sent + [Progress(base.flen, 0)];
      disk.Truncate(base.psPath);
      match input
      case Err(e) =>
        return Err(e);
      case Ok(data) =>
        var inf := new InputStream(data);
        TransferBytes(inf);
        assert [] + data == data;
        return Ok(true);
    }

    /** `transferBytes`: read buffers until an empty one, append each to the
        cache file and report the running count. */
    method TransferBytes(inf: InputStream)
      requires base.psPath in disk.files
      modifies base, disk, inf
      ensures disk.files == old(disk.files)[base.psPath := old(disk.files)[base.psPath] + old(inf.remaining)]
      ensures var t := ThrottleRun(base.flen, old(base.lastTransferred), ReadTotals(0, |old(inf.remaining)|));
        base.sent == old(base.sent) + SentUpdates(base.flen, t.emitted) && base.lastTransferred == t.last
      ensures base.flen == old(base.flen) && inf.remaining == []
    {
      ghost var data := inf.remaining;
      ghost var n := |data|;
      ghost var last0 := base.lastTransferred;
      ghost var sent0 := base.sent;
      ghost var files0 := disk.files;
      ghost var totals: seq<int> := [];
      var crt := 0;
      assert files0[base.psPath] + data[..crt] == files0[base.psPath];
      assert disk.files == files0[base.psPath := files0[base.psPath] + data[..crt]];
      while true
        invariant 0 <= crt <= n
        invariant inf.remaining == data[crt..]
        invariant disk.files == files0[base.psPath := files0[base.psPath] + data[..crt]]
        invariant totals + ReadTotals(crt, n) == ReadTotals(0, n)
        invariant base.flen == old(base.flen)
        invariant base.sent == sent0 + SentUpdates(base.flen, ThrottleRun(base.flen, last0, totals).emitted)
        invariant base.lastTransferred == ThrottleRun(base.flen, last0, totals).last
        decreases |inf.remaining|
      {
        var buf := inf.Read(BufSize);
        NextBuffer(data, crt, buf);
        if |buf| == 0 {
          break;
        }
        Write(files0, data, crt, buf);
        TotalsAdvance(totals, crt, n, |buf|);
        crt := crt + |buf|;
        base.ReportFollowingRun(last0, sent0, totals, crt);
        totals := totals + [crt];
      }
      assert data[..crt] == data;
      assert totals == ReadTotals(0, n);
    }

    /** One `outf.write(buf)` of the bytes that follow the first `crt`. */
    method Write(ghost files0: map<Path, seq<byte>>, ghost data: seq<byte>, crt: nat, buf: seq<byte>)
      requires base.psPath in files0 && crt + |buf| <= |data| && buf == data[crt..crt + |buf|]
      requires disk.files == files0[base.psPath := files0[base.psPath] + data[..crt]]
      modifies disk
      ensures disk.files == files0[base.psPath := files0[base.psPath] + data[..crt + |buf|]]
    {
      assert data[..crt] + buf == data[..crt + |buf|];
      assert (files0[base.psPath] + data[..crt]) + buf == files0[base.psPath] + data[..crt + |buf|];
      disk.Append(base.psPath, buf);
    }
  }
}

/**
 One bucket's write path on its arrays: the critical section of Write, and the flush at closing.

 The crash behaviour of the same steps is in BucketLog; here they run to the end.
 */
module BucketFiles {
  import opened Arith
  import opened BucketLog

  class Bucket {
    const c: Layout
    var keyBuf: array<Key>                // the bucket's parts of the mapped buffer files
    var valBuf: array<Value>
    const keyFile: array<Key>             // the bucket's regions of the files
    const valFile: array<Value>
    var count: nat                        // mmap_meta_cnt_[bucket]
    ghost var log: seq<Entry>

    /** The bucket as BucketLog sees it, its writer at program point w. */
    ghost function ViewAt(w: Writer): View
      reads this, keyBuf, valBuf, keyFile, valFile
    {
      View(count, log, keyBuf[..], valBuf[..], keyFile[..], valFile[..], w, true, true, false, false)
    }

    ghost predicate Apart()
      reads this
    {
      keyBuf != keyFile && valBuf != valFile && keyBuf != valBuf && keyBuf != valFile && valBuf != keyFile && keyFile != valFile
    }

    ghost predicate Valid()
      reads this, keyBuf, valBuf, keyFile, valFile
    {
      Apart() && BucketInv(c, ViewAt(Free))
    }

    constructor (c: Layout)
      requires c.Valid()
      ensures Valid() && this.c == c && log == []
      ensures fresh(keyBuf) && fresh(valBuf) && fresh(keyFile) && fresh(valFile)
    {
      this.c := c;
      keyBuf, keyFile := new Key[c.keySlots](_ => 0), new Key[c.region](_ => 0);
      valBuf, valFile := new Value[c.valSlots](_ => 0), new Value[c.region](_ => 0);
      count, log := 0, [];
      new;
      assert Base(0, c.valSlots) == 0 && Base(0, c.keySlots) == 0;
    }

    /** Write, under the bucket's mutex: one more entry, in a full block in the files or in the buffers. */
    method Write(key: Key, value: Value)
      requires Valid() && count < c.region
      modifies `count, `log, keyBuf, valBuf, keyFile, valFile
      ensures Valid() && log == old(log) + [Entry(key, value)] && count == old(count) + 1
    {
      ghost var e := Entry(key, value);
      StoreValue(e, value);
      StoreKey(e, key);
      CountVals(c, ViewAt(Counting(e)));
      CountKeys(c, ViewAt(Counting(e)));
      count, log := count + 1, log + [e];
    }

    /** memcpy into the value buffer, and pwrite of the block when it is full. */
    method StoreValue(ghost e: Entry, value: Value)
      requires Apart() && BucketInv(c, ViewAt(Free)) && count < c.region && e.value == value
      modifies valBuf, valFile
      ensures BucketInv(c, ViewAt(KeyStoring(e)))
    {
      CopyDone(c, ViewAt(Copying(e)));
      ghost var buf := valBuf[..][count % c.valSlots := value];
      valBuf[count % c.valSlots] := value;
      assert valBuf[..] == buf;
      if (count + 1) % c.valSlots == 0 { PutValBlock(e); }
    }

    method PutValBlock(ghost e: Entry)
      requires Apart() && BucketInv(c, ViewAt(ValWriting(e))) && (count + 1) % c.valSlots == 0
      modifies valFile
      ensures BucketInv(c, ViewAt(KeyStoring(e)))
    {
      ValWriteDone(c, ViewAt(ValWriting(e)));
      BlockFits(count, c.valSlots, c.region);
      ghost var file := Splice(valFile[..], Base(count, c.valSlots), valBuf[..]);
      PutAll(valFile, count - (c.valSlots - 1), valBuf);
      assert valFile[..] == file;
    }

    /** The key into its buffer, and pwrite of the block when it is full. */
    method StoreKey(ghost e: Entry, key: Key)
      requires Apart() && BucketInv(c, ViewAt(KeyStoring(e))) && e.key == key
      modifies keyBuf, keyFile
      ensures BucketInv(c, ViewAt(Counting(e)))
    {
      KeyStoreDone(c, ViewAt(KeyStoring(e)));
      ghost var buf := keyBuf[..][count % c.keySlots := key];
      keyBuf[count % c.keySlots] := key;
      assert keyBuf[..] == buf;
      if (count + 1) % c.keySlots == 0 {
        KeyWriteDone(c, ViewAt(KeyWriting(e)));
        BlockFits(count, c.keySlots, c.region);
        PutAll(keyFile, count - (c.keySlots - 1), keyBuf);
      }
    }

    /**
     ParallelFlushTmp's work on one bucket, and the truncation of the buffer files: afterwards the files alone
     hold every counted entry.
     */
    method FlushTmp()
      requires Valid()
      modifies `keyBuf, `valBuf, keyFile, valFile
      ensures keyBuf.Length == valBuf.Length == 0
      ensures forall i :: 0 <= i < count ==> keyFile[i] == log[i].key && valFile[i] == log[i].value
      ensures |log| == count <= keyFile.Length == valFile.Length
    {
      FlushVals();
      FlushKeys();
      valBuf := new Value[0];
      keyBuf := new Key[0];
    }

    method FlushVals()
      requires Valid()
      modifies valFile
      ensures |log| == count <= valFile.Length && forall i :: 0 <= i < count ==> valFile[i] == log[i].value
    {
      ghost var v := ViewAt(Free).(running := false);
      FlushValDone(c, v);
      var base := count / c.valSlots * c.valSlots;
      ghost var file := Splice(valFile[..], base, valBuf[..][..count % c.valSlots]);
      if count % c.valSlots != 0 {
        Put(valFile, base, valBuf, count % c.valSlots);
        assert valBuf[..count % c.valSlots] == valBuf[..][..count % c.valSlots];
      }
      assert valFile[..] == file;
    }

    method FlushKeys()
      requires Valid()
      modifies keyFile
      ensures |log| == count <= keyFile.Length && forall i :: 0 <= i < count ==> keyFile[i] == log[i].key
    {
      if count % c.keySlots != 0 {
        FlushKeyBlock();
      } else {
        assert Base(count, c.keySlots) == count;
      }
    }

    method FlushKeyBlock()
      requires Valid() && count % c.keySlots != 0
      modifies keyFile
      ensures |log| == count <= keyFile.Length && forall i :: 0 <= i < count ==> keyFile[i] == log[i].key
    {
      ghost var v := ViewAt(Free).(running := false);
      FlushKeyDone(c, v);
      ghost var file := Splice(keyFile[..], Base(count, c.keySlots), keyBuf[..]);
      assert forall i :: 0 <= i < count ==> file[i] == log[i].key;
      PutAll(keyFile, count / c.keySlots * c.keySlots, keyBuf);
      assert keyFile[..] == file;
    }
  }

  /** pwrite of a whole buffer. */
  method PutAll<T>(file: array<T>, off: nat, buf: array<T>)
    requires file != buf && off + buf.Length <= file.Length
    modifies file
    ensures file[..] == Splice(old(file[..]), off, buf[..])
  {
    Put(file, off, buf, buf.Length);
    assert buf[..buf.Length] == buf[..];
  }

  /** pwrite of the first n slots of a buffer. */
  method Put<T>(file: array<T>, off: nat, buf: array<T>, n: nat)
    requires file != buf && n <= buf.Length && off + n <= file.Length
    modifies file
    ensures file[..] == Splice(old(file[..]), off, buf[..n])
  {
    for i := 0 to n
      invariant file[..] == Splice(old(file[..]), off, buf[..i])
    {
      file[off + i] := buf[i];
    }
  }
}

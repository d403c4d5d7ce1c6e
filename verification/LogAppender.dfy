/** FileLogAppender: producers append records to a cache buffer under a lock; the sync thread swaps the full buffers
    out under the same lock and writes them to the file outside it.

    Each method is one critical section or one piece of the sync thread's own work, so a sequence of calls is an
    interleaving of producers and the sync thread. Buffers and file are bytes; which records they are made of is
    ghost. */
module LogAppender {
  import opened Basics
  import opened LogText
  import opened LogRuns
  import StackBuffers

  /** What the bytes of an appender are: whole records in every buffer, and the text of the batches in the file. */
  ghost predicate Whole(l: Log, cache: string, buffers: seq<string>, localBuffers: seq<string>, file: string) {
    && cache == Join(l.cached)
    && buffers == Buffers(l.full)
    && localBuffers == Buffers(l.local)
    && file == File(l.batches)
  }

  lemma NothingWhole()
    ensures Whole(Fresh(), "", [], [], "")
  {
    JoinNone();
    FileNone();
  }

  lemma WholeAfterAppend(
    l: Log, cache: string, buffers: seq<string>, localBuffers: seq<string>, file: string, r: Record)
    requires Whole(l, cache, buffers, localBuffers, file)
    ensures cache == Join(l.cached)
    ensures BUFFER_SIZE - |cache| > |r| ==> Whole(Produced(l, r), cache + r, buffers, localBuffers, file)
    ensures BUFFER_SIZE - |cache| <= |r| ==> Whole(Produced(l, r), r, buffers + [cache], localBuffers, file)
  {
    JoinAppend(l.cached, r);
    JoinNone();
    JoinAppend([], r);
    assert [] + [r] == [r];
    BuffersAppend(l.full, l.cached);
    hide Buffers, Join, File;
  }

  lemma WholeAfterSwap(l: Log, cache: string, buffers: seq<string>, localBuffers: seq<string>, file: string)
    requires Whole(l, cache, buffers, localBuffers, file) && !l.swapped && l.local == []
    ensures l.Takes() <==> buffers != [] || |cache| > 0
    ensures l.Takes() ==> Whole(Synced(l), "", [], buffers + [cache], file) && localBuffers == []
  {
    JoinNone();
    BuffersAppend(l.full, l.cached);
    assert Buffers([]) == [];
    hide Buffers, Join, File;
  }

  lemma WholeAfterWriting(l: Log, cache: string, buffers: seq<string>, localBuffers: seq<string>, file: string)
    requires Whole(l, cache, buffers, localBuffers, file) && l.swapped
    ensures Whole(Synced(l), cache, buffers, [], file + Join(Written(localBuffers)))
  {
    WrittenText(localBuffers, l.local);
    FileNext(l.batches, l.local);
    assert Buffers([]) == [];
    hide Buffers, Join, File, Written, Texts, Output;
  }

  class FileLogAppender {
    // guarded by the lock
    var cacheBuffer: Option<string>
    var backupCacheBuffer: Option<string>
    var buffers: seq<string>
    // of the sync thread
    var localBuffers: seq<string>
    var localCache: Option<string>
    var localBackup: Option<string>
    var swapped: bool
    var file: string
    ghost var log: Log // which records are where

    /** Between critical sections there is a cache to write to, and the bytes are those of the log. Buffers in reserve
        are empty. */
    ghost predicate Valid()
      reads this
    {
      && cacheBuffer.Some?
      && Whole(log, cacheBuffer.value, buffers, localBuffers, file)
      && log.swapped == swapped && log.backup == backupCacheBuffer.Some?
      && (backupCacheBuffer.Some? ==> backupCacheBuffer.value == "")
      && (localBackup.Some? ==> localBackup.value == "")
      && (!swapped ==> log.local == [] && localCache == Some("") && localBackup == Some(""))
    }

    constructor ()
      ensures Valid() && log == Fresh()
    {
      NothingWhole();
      cacheBuffer, backupCacheBuffer, buffers := Some(""), Some(""), [];
      localBuffers, localCache, localBackup, swapped := [], Some(""), Some(""), false;
      file, log := "", Fresh();
    }

    /** Appends a record whole: to the cache, or to a fresh one if the cache is full. */
    method Append(record: Record)
      requires Valid() && |record| < RECORD_SIZE
      modifies this
      ensures Valid() && log == Produced(old(log), record) && file == old(file)
    {
      hide Whole, Join;
      ghost var l := log;
      var cache := cacheBuffer.value;
      WholeAfterAppend(log, cache, buffers, localBuffers, file, record);
      if BUFFER_SIZE - |cache| > |record| {
        cacheBuffer := Some(StackBuffers.Written(cache, BUFFER_SIZE, record));
      } else {
        buffers, cacheBuffer := buffers + [cache], None;
        if backupCacheBuffer.Some? {
          cacheBuffer, backupCacheBuffer := backupCacheBuffer, None;
        } else {
          cacheBuffer := Some("");
        }
        cacheBuffer := Some(StackBuffers.Written(cacheBuffer.value, BUFFER_SIZE, record));
        assert "" + record == record;
      }
      log := Produced(l, record);
    }

    /** The sync thread's critical section: it takes all buffers, unless there is nothing to take. A missing backup
        is not replaced. */
    method SwapBuffers()
      requires Valid() && !swapped
      modifies this
      ensures Valid() && log == Synced(old(log)) && file == old(file)
      ensures backupCacheBuffer == old(backupCacheBuffer)
    {
      hide Whole, Join, Log.Takes;
      var cache := cacheBuffer.value;
      WholeAfterSwap(log, cache, buffers, localBuffers, file);
      if buffers != [] || |cache| > 0 {
        ExchangeBuffers();
        swapped := true;
      }
      log := Synced(log);
    }

    /** The cache joins the full buffers; these, the cache and the backup, if it is there, change places with those
        of the sync thread. */
    method ExchangeBuffers()
      requires cacheBuffer.Some?
      modifies this`buffers, this`localBuffers, this`cacheBuffer, this`localCache
      modifies this`backupCacheBuffer, this`localBackup
      ensures buffers == old(localBuffers) && localBuffers == old(buffers) + [old(cacheBuffer).value]
      ensures cacheBuffer == old(localCache) && localCache == None
      ensures if old(backupCacheBuffer).Some? then backupCacheBuffer == old(localBackup) && localBackup == None
              else backupCacheBuffer == None && localBackup == old(localBackup)
    {
      buffers := buffers + [cacheBuffer.value];
      buffers, localBuffers := localBuffers, buffers;
      cacheBuffer, localCache := localCache, None;
      if backupCacheBuffer.Some? {
        backupCacheBuffer, localBackup := localBackup, None;
      }
    }

    /** The sync thread's work on its batch: it drops the second half of an oversized batch, writes the rest to the file
        and makes itself fresh buffers. */
    method WriteBatch()
      requires Valid() && swapped
      modifies this
      ensures Valid() && log == Synced(old(log))
      ensures buffers == old(buffers) && cacheBuffer == old(cacheBuffer)
    {
      hide Whole, Join, Written, Log.Takes;
      WholeAfterWriting(log, cacheBuffer.value, buffers, localBuffers, file);
      CutBatch();
      SyncSingleFile(localBuffers);
      localBuffers, localCache := [], Some("");
      if localBackup.None? {
        localBackup := Some("");
      }
      swapped := false;
      log := Synced(log);
    }

    /** Too many buffers: the second half is erased, and a warning takes its place. */
    method CutBatch()
      modifies this`localBuffers
      ensures localBuffers == Written(old(localBuffers))
    {
      if |localBuffers| > MAX_BUFFERS {
        var size := |localBuffers|;
        localBuffers := localBuffers[..size / 2];
        localBuffers := localBuffers + [Warning(size / 2).Text()];
      }
    }

    method SyncSingleFile(bs: seq<string>)
      modifies this`file
      ensures file == old(file) + Join(bs)
    {
      JoinNone();
      for i := 0 to |bs|
        invariant file == old(file) + Join(bs[..i])
      {
        JoinAppend(bs[..i], bs[i]);
        assert bs[..i + 1] == bs[..i] + [bs[i]];
        file := file + bs[i];
      }
      assert bs[..|bs|] == bs;
    }
  }

  /** Any turns of producers and the sync thread on a new appender leave the log of those turns, in whole records: what
      holds of that log holds of the appender's buffers and file. */
  method AnyRun(turns: seq<Turn>) returns (appender: FileLogAppender)
    requires Short(turns)
    ensures fresh(appender) && appender.Valid() && appender.log == After(turns)
    ensures appender.file == File(After(turns).batches)
    ensures KeepsPace(turns) ==> appender.file == Join(Inputs(After(turns).batches))
  {
    appender := new FileLogAppender();
    hide FileLogAppender.Valid, Next;
    for k := 0 to |turns|
      invariant fresh(appender) && appender.Valid() && appender.log == After(turns[..k])
    {
      assert turns[..k + 1][..k] == turns[..k];
      Take(appender, turns[k]);
    }
    assert turns[..|turns|] == turns;
    FileOf(appender);
    if KeepsPace(turns) {
      PaceTheorem(turns);
    }
  }

  method Take(appender: FileLogAppender, turn: Turn)
    requires appender.Valid() && (turn.Produce? ==> |turn.record| < RECORD_SIZE)
    modifies appender
    ensures appender.Valid() && appender.log == Next(old(appender.log), turn)
  {
    hide Produced, Synced, Whole;
    match turn
    case Produce(r) => appender.Append(r);
    case Sync =>
      if appender.swapped {
        appender.WriteBatch();
      } else {
        appender.SwapBuffers();
      }
  }

  lemma FileOf(appender: FileLogAppender)
    requires appender.Valid()
    ensures appender.file == File(appender.log.batches)
  {
  }
}

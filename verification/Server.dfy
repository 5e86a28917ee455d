/** The server's state, updated in place: fs_tmp and the mapped image. */
module Server {
  import opened Words
  import opened Osada
  import opened Names
  import opened Namespace
  import opened Store
  import opened Truncate
  import opened Files
  import opened Slots
  import opened Ownership
  import opened Requests
  import opened Invariant
  import opened Image
  import opened Contents
  import opened Stream
  import Bitmap
  import Fat

  /** An image main may load: its records are valid and what they describe is in order. */
  ghost predicate WellFormedImage(img: seq<byte>) {
    WholeImage(img) && StatesValid(TablePart(img, HeaderOf(img))) && Good(Load(img))
  }

  /** Cutting the bytes s into packets: `sent` went out, `msg` is being filled, k blocks followed the first. */
  ghost predicate Cutting(s: seq<byte>, copied: nat, k: nat, sent: seq<Reply>, msg: seq<byte>) {
    && copied <= |s|
    && AllMore(sent) && Joined(sent) + msg == s[..copied]
    && |msg| <= BLOCK_SIZE * (k % 4 + 1)
    && (k > 0 || copied < |s| ==> |msg| > 0)
    && (k == 0 ==> sent == [])
  }

  lemma CuttingStarts(content: seq<byte>, offset: nat, size: nat, msg: seq<byte>)
    requires offset + size <= |content| && |msg| <= Min(BLOCK_SIZE, size) && (size > 0 ==> |msg| > 0)
    requires msg == content[offset..offset + |msg|]
    ensures Cutting(content[offset..offset + size], |msg|, 0, [], msg)
  {
    NextSlice(content, offset, size, 0, |msg|);
    EmptyStream();
    assert [] + msg == msg;
  }

  lemma CuttingGoesOn(
    content: seq<byte>, offset: nat, size: nat, copied: nat, k: nat, sent: seq<Reply>, msg: seq<byte>, bytes: seq<byte>)
    requires offset + size <= |content| && 0 < |bytes| <= BLOCK_SIZE && copied + |bytes| <= size
    requires Cutting(content[offset..offset + size], copied, k, sent, msg)
    requires bytes == content[offset + copied..offset + copied + |bytes|]
    ensures var s := content[offset..offset + size];
      if (k + 1) % 4 == 0 then Cutting(s, copied + |bytes|, k + 1, sent + [Data(1, msg)], [] + bytes)
      else Cutting(s, copied + |bytes|, k + 1, sent, msg + bytes)
  {
    NextSlice(content, offset, size, copied, copied + |bytes|);
    hide AllMore, Joined;
    if (k + 1) % 4 == 0 {
      AllMoreSnoc(sent, msg);
      assert [] + bytes == bytes;
    }
    assert (Joined(sent) + msg) + bytes == Joined(sent) + (msg + bytes);
  }

  /** When all is copied, marking what is being filled as the last packet completes the stream. */
  lemma CuttingEnds(s: seq<byte>, copied: nat, k: nat, sent: seq<Reply>, msg: seq<byte>)
    requires Cutting(s, copied, k, sent, msg) && copied == |s|
    ensures Complete(sent + [Data(0, msg)], s) && (k > 0 ==> |msg| > 0)
    ensures k == 0 ==> Complete([Data(0, msg)], s)
  {
    CompleteSnoc(sent, msg);
    assert s[..copied] == s;
    assert k == 0 ==> sent + [Data(0, msg)] == [Data(0, msg)];
  }

  class FsOsada {
    const geo: Geometry
    const bitmap: array<bv8>
    const fileTable: array<OsadaFile>
    const fat: array<u32>
    const locks: array<RwLock>
    const pokedex: array<byte>

    ghost predicate Shaped() {
      && geo.WellLaid()
      && bitmap.Length == BLOCK_SIZE * geo.bitmapBlocks
      && fileTable.Length == MAX_FILES
      && fat.Length == geo.dataBlocks
      && locks.Length == MAX_FILES
      && pokedex.Length == BLOCK_SIZE * geo.fsBlocks
      && bitmap as object != pokedex && bitmap as object != fat && bitmap as object != locks
      && fat as object != pokedex && fat as object != locks
      && fileTable as object != bitmap && fileTable as object != fat
      && fileTable as object != pokedex && fileTable as object != locks
      && locks as object != pokedex
    }

    /** What the arrays mean. */
    ghost function Model(): (fs: Fs)
      requires Shaped()
      ensures fs.Shape() && fs.geo == geo
      reads bitmap, fileTable, fat, locks, pokedex
    {
      Fs(geo, Bitmap.Bits(bitmap[..]), fat[..], fileTable[..], locks[..], DataPart(pokedex[..], geo))
    }

    /** The image repeats the memory. */
    ghost predicate Synced()
      reads bitmap, fileTable, fat, pokedex
    {
      Agrees(pokedex[..], geo, bitmap[..], fileTable[..], fat[..])
    }

    ghost predicate Valid()
      reads bitmap, fileTable, fat, locks, pokedex
    {
      Shaped() && Synced() && Good(Model())
    }

    /** memcpy into the image. */
    method Memcpy(at: nat, buf: seq<byte>)
      requires at + |buf| <= pokedex.Length
      modifies pokedex
      ensures pokedex[..] == Copied(old(pokedex[..]), at, buf)
    {
      forall k | 0 <= k < |buf| {
        pokedex[at + k] := buf[k];
      }
    }

    /** The header is in place and only the named parts of the image may differ from what they were. */
    twostate predicate PartsKept(header: bool, bits: bool, table: bool, links: bool, data: bool)
      requires Shaped()
      reads pokedex
    {
      && (header ==> pokedex[..BLOCK_SIZE] == old(pokedex[..BLOCK_SIZE]))
      && (bits ==> BitmapPart(pokedex[..], geo) == old(BitmapPart(pokedex[..], geo)))
      && (table ==> TablePart(pokedex[..], geo) == old(TablePart(pokedex[..], geo)))
      && (links ==> FatPart(pokedex[..], geo) == old(FatPart(pokedex[..], geo)))
      && (data ==> DataPart(pokedex[..], geo) == old(DataPart(pokedex[..], geo)))
    }

    method SyncBitmap()
      requires Shaped()
      modifies pokedex
      ensures GetBitmap(BitmapPart(pokedex[..], geo)) == bitmap[..]
      ensures PartsKept(true, false, true, true, true)
    {
      ghost var img := pokedex[..];
      var buf := PutBitmap(bitmap[..]);
      Memcpy(BITMAP_AT, buf);
      CopiedThere(img, BITMAP_AT, buf);
      GetPutBitmap(bitmap[..]);
      CopiedElsewhere(img, BITMAP_AT, buf, 0, BLOCK_SIZE);
      CopiedElsewhere(img, BITMAP_AT, buf, TableAt(geo), FILE_RECORD * MAX_FILES);
      CopiedElsewhere(img, BITMAP_AT, buf, FatAt(geo), 4 * geo.dataBlocks);
      CopiedElsewhere(img, BITMAP_AT, buf, DataAt(geo), BLOCK_SIZE * geo.dataBlocks);
    }

    method SyncTable()
      requires Shaped()
      modifies pokedex
      ensures TablePart(pokedex[..], geo) == PutTable(fileTable[..])
      ensures PartsKept(true, true, false, true, true)
    {
      ghost var img := pokedex[..];
      var buf := PutTable(fileTable[..]);
      var at := TableAt(geo);
      Memcpy(at, buf);
      CopiedThere(img, at, buf);
      CopiedElsewhere(img, at, buf, 0, BLOCK_SIZE);
      CopiedElsewhere(img, at, buf, BITMAP_AT, BLOCK_SIZE * geo.bitmapBlocks);
      CopiedElsewhere(img, at, buf, FatAt(geo), 4 * geo.dataBlocks);
      CopiedElsewhere(img, at, buf, DataAt(geo), BLOCK_SIZE * geo.dataBlocks);
    }

    method SyncFat()
      requires Shaped()
      modifies pokedex
      ensures FatPart(pokedex[..], geo) == PutFat(fat[..])
      ensures PartsKept(true, true, true, false, true)
    {
      ghost var img := pokedex[..];
      var buf := PutFat(fat[..]);
      var at := FatAt(geo);
      Memcpy(at, buf);
      CopiedThere(img, at, buf);
      CopiedElsewhere(img, at, buf, 0, BLOCK_SIZE);
      CopiedElsewhere(img, at, buf, BITMAP_AT, BLOCK_SIZE * geo.bitmapBlocks);
      CopiedElsewhere(img, at, buf, TableAt(geo), FILE_RECORD * MAX_FILES);
      CopiedElsewhere(img, at, buf, DataAt(geo), BLOCK_SIZE * geo.dataBlocks);
    }

    /** All of the image but the bitmap and the links repeats the memory. */
    ghost predicate SyncedButLinks()
      requires Shaped()
      reads fileTable, pokedex
    {
      && WholeImage(pokedex[..]) && HeaderOf(pokedex[..]) == geo
      && TablePart(pokedex[..], geo) == PutTable(fileTable[..])
    }

    method SyncBitmapAndFat()
      requires Shaped() && SyncedButLinks()
      modifies pokedex
      ensures Synced() && DataPart(pokedex[..], geo) == old(DataPart(pokedex[..], geo))
    {
      SyncBitmap();
      SyncFat();
      HeaderInFirstBlock(old(pokedex[..]), pokedex[..]);
      hide PutBitmap, GetBitmap, PutFat, PutTable, TablePart, FatPart, BitmapPart, DataPart, HeaderOf;
    }

    /** The blocks at the end of a chain. */
    method LastBlockOf(i: nat) returns (prev: u32, last: u32)
      requires Shaped() && Sound(Model()) && Model().IsRegular(i)
      ensures var c := Model().Blocks(i);
        && i < fileTable.Length && Model().table[i] == fileTable[i]
        && |c| > 0 && last == c[|c| - 1] && last < fat.Length
        && (|c| >= 2 ==> prev == c[|c| - 2] && prev < fat.Length)
    {
      assert Fat.Linked(Model().fat, Model().Blocks(i));
      hide Sound;
      prev, last := Fat.LastBlock(fat, fileTable[i].firstBlock);
    }

    /** The lowest free data block, or -1. */
    method FreeBlock() returns (block: int)
      requires Shaped()
      ensures block == Bitmap.FirstFree(Model().DataBits()) && -1 <= block < fat.Length
    {
      hide Bitmap.Bits, Bitmap.FirstFree, DataPart;
      block := Bitmap.FreeBitBitmap(bitmap, geo.DataOffset(), geo.dataBlocks);
    }

    /** How many data blocks are free. */
    method CountFree() returns (free: nat)
      requires Shaped()
      ensures free == Model().FreeBlocks()
    {
      hide Bitmap.Bits, Bitmap.FreeCount, DataPart;
      free := Bitmap.FreeBlocks(bitmap, geo.DataOffset(), geo.dataBlocks);
    }

    /** Take a block and link it behind another. */
    method LinkBlock(last: u32, block: u32)
      requires Shaped() && Synced() && last < fat.Length && block < fat.Length
      modifies bitmap, fat, pokedex
      ensures Synced() && Model() == Attach(old(Model()), last, block)
    {
      hide PutBitmap, GetBitmap, PutFat, PutTable, TablePart, FatPart, BitmapPart, DataPart, HeaderOf, Bitmap.Bits;
      Bitmap.SetBitmap(bitmap, block + geo.DataOffset());
      fat[last] := block;
      fat[block] := Fat.END;
      assert fat[..] == old(fat[..])[last := block][block := Fat.END];
      SyncBitmapAndFat();
    }

    /** Free a block and end the chain before it. */
    method UnlinkBlock(prev: u32, last: u32)
      requires Shaped() && Synced() && prev < fat.Length && last < fat.Length
      modifies bitmap, fat, pokedex
      ensures Synced() && Model() == Detach(old(Model()), prev, last)
    {
      hide PutBitmap, GetBitmap, PutFat, PutTable, TablePart, FatPart, BitmapPart, DataPart, HeaderOf, Bitmap.Bits;
      Bitmap.CleanBitmap(bitmap, last + geo.DataOffset());
      fat[prev] := Fat.END;
      assert fat[..] == old(fat[..])[prev := Fat.END];
      SyncBitmapAndFat();
    }

    /** One round of the growing loop of osada_ftruncate. */
    method AppendBlock(i: nat)
      requires Shaped() && Synced() && Sound(Model()) && Model().IsRegular(i) && Model().FreeBlocks() > 0
      modifies bitmap, fat, pokedex
      ensures Synced() && Model() == Alloc(old(Model()), i)
    {
      hide *;
      AllocUnfold(Model(), i);
      var _, last := LastBlockOf(i);
      var block := FreeBlock();
      if block == -1 {
        assert false;
      }
      LinkBlock(last, block);
    }

    /** One round of the shrinking loop of osada_ftruncate. */
    method DropBlock(i: nat)
      requires Shaped() && Synced() && Sound(Model()) && Model().IsRegular(i) && |Model().Blocks(i)| >= 2
      modifies bitmap, fat, pokedex
      ensures Synced() && Model() == FreeLast(old(Model()), i)
    {
      hide *;
      FreeLastUnfold(Model(), i);
      var prev, last := LastBlockOf(i);
      if last == fileTable[i].firstBlock {
        assert false;
      }
      UnlinkBlock(prev, last);
    }

    method Grow(i: nat, growth: nat)
      requires Shaped() && Synced() && Sound(Model()) && Model().IsRegular(i) && growth <= Model().FreeBlocks()
      modifies bitmap, fat, pokedex
      ensures Synced() && Model() == AllocN(old(Model()), i, growth)
    {
      hide *;
      ghost var fs := Model();
      AllocNUnfold(fs, i, 0);
      var left := growth;
      while left > 0
        invariant 0 <= left <= growth
        invariant Synced() && Model() == AllocN(fs, i, growth - left)
      {
        AppendBlock(i);
        AllocNUnfold(fs, i, growth - left + 1);
        left := left - 1;
      }
    }

    method Shrink(i: nat, loss: nat)
      requires Shaped() && Synced() && Sound(Model()) && Model().IsRegular(i) && loss < |Model().Blocks(i)|
      modifies bitmap, fat, pokedex
      ensures Synced() && Model() == FreeN(old(Model()), i, loss)
    {
      hide *;
      ghost var fs := Model();
      FreeNUnfold(fs, i, 0);
      var left := loss;
      while left > 0
        invariant 0 <= left <= loss
        invariant Synced() && Model() == FreeN(fs, i, loss - left)
      {
        DropBlock(i);
        FreeNUnfold(fs, i, loss - left + 1);
        left := left - 1;
      }
    }

    /** Update one entry of the file table, in memory and on the image. */
    method SetEntry(i: nat, e: OsadaFile)
      requires Shaped() && Synced() && i < MAX_FILES
      modifies fileTable, pokedex
      ensures Synced() && Model() == old(Model()).(table := old(Model()).table[i := e])
    {
      hide PutBitmap, GetBitmap, PutFat, PutTable, TablePart, FatPart, BitmapPart, DataPart, HeaderOf, Bitmap.Bits;
      fileTable[i] := e;
      assert fileTable[..] == old(fileTable[..])[i := e];
      SyncTable();
      HeaderInFirstBlock(old(pokedex[..]), pokedex[..]);
    }

    method Ftruncate(path: seq<byte>, size: u32) returns (r: int)
      requires Valid() && Admissible(Model(), Request.Ftruncate(path, size))
      modifies bitmap, fat, fileTable, pokedex
      ensures Valid() && (Model(), r) == Step(old(Model()), Request.Ftruncate(path, size))
    {
      hide WellFormed, Synced, Forest, SlotsSafe, StepKeeps, Resized;
      ghost var fs := Model();
      EveryStepKeeps(fs, Request.Ftruncate(path, size));
      var pos := FindSlot(fileTable, path);
      if pos == MAX_FILES || fileTable[pos].state.Deleted? {
        return -ENOENT;
      }
      r := ResizeSlot(pos, size);
    }

    method Write(path: seq<byte>, off: u32, buf: seq<byte>) returns (r: int)
      requires Valid() && Admissible(Model(), Request.Write(path, off, buf))
      modifies bitmap, fat, fileTable, pokedex
      ensures Valid() && (Model(), r) == Step(old(Model()), Request.Write(path, off, buf))
    {
      hide WellFormed, Synced, Forest, SlotsSafe, StepKeeps, Cut, Wrote, Room, Stored, IsParent, Fs.Shape;
      ghost var fs := Model();
      EveryStepKeeps(fs, Request.Write(path, off, buf));
      WroteUnfold(fs, path, off, buf);
      var pos := FindSlot(fileTable, path);
      if pos == MAX_FILES || fileTable[pos].state.Deleted? {
        return -ENOENT;
      }
      if fileTable[pos].fileSize < off + |buf| {
        r := Ftruncate(path, off + |buf|);
        if r != 0 {
          return r;
        }
      }
      StoreBytes(pos, off, buf);
      r := |buf|;
    }

    lemma EntryOfModel(i: nat)
      requires Shaped() && Model().IsLive(i)
      ensures i < fileTable.Length == MAX_FILES && i < |Model().table| && Model().table[i] == fileTable[i]
    {
    }

    method ResizeSlot(i: nat, size: u32) returns (r: int)
      requires Shaped() && Synced() && WellFormed(Model()) && Model().IsRegular(i)
      requires SlotsSafe(Model()) && size < 0x8000_0000
      modifies bitmap, fat, fileTable, pokedex
      ensures Synced() && (Model(), r) == Resized(old(Model()), i, size)
    {
      hide *;
      ghost var fs := Model();
      RegularIsLive(fs, i);
      EntryOfModel(i);
      ResizedUnfold(fs, i, size);
      GrowthUnfold(fs, i, size);
      WellFormedIsSound(fs);
      if size == fileTable[i].fileSize {
        return 0;
      }
      var growth := BlocksOf(size) - BlocksOf(fileTable[i].fileSize);
      if growth > 0 {
        var free := CountFree();
        if growth > free {
          return -EFBIG;
        }
        ReblockedUnfold(fs, i, growth);
        Grow(i, growth);
      } else {
        ReblockedUnfold(fs, i, growth);
        if growth < 0 {
          Shrink(i, -growth);
        }
      }
      RegularIsLive(Model(), i);
      EntryOfModel(i);
      SetSizeUnfold(Model(), i, size);
      SetEntry(i, fileTable[i].(fileSize := size));
      r := 0;
    }

    /** Store bytes inside one data block. */
    method StoreChunk(block: u32, rem: nat, chunk: seq<byte>)
      requires Shaped() && Synced() && block < fat.Length && rem + |chunk| <= BLOCK_SIZE
      modifies pokedex
      ensures Synced() && BLOCK_SIZE * block + rem + |chunk| <= |old(Model()).data|
      ensures Model() == old(Model()).(data := Copied(old(Model()).data, BLOCK_SIZE * block + rem, chunk))
    {
      hide Agrees, PutBitmap, PutFat, PutTable, Bitmap.Bits, Copied, HeaderOf, DataPart, Fs.Shape;
      ChunkInData(pokedex[..], geo, bitmap[..], fileTable[..], fat[..], block, rem, chunk);
      Memcpy((geo.DataOffset() + block) * BLOCK_SIZE + rem, chunk);
    }

    /** The copying part of osada_write: walk to the block of `off`, then store block by block. */
    method StoreBytes(i: nat, off: nat, buf: seq<byte>)
      requires Shaped() && Synced() && Room(Model(), i, off + |buf|)
      modifies pokedex
      ensures Synced() && Model() == Stored(old(Model()), i, off, buf)
    {
      ghost var fs := Model();
      var block, copied := StoreFirst(i, off, buf);
      hide *;
      while copied < |buf|
        invariant Cursor(fs, i, off, |buf|, copied, block) && copied <= |buf|
        invariant Room(fs, i, off + |buf[..copied]|)
        invariant Synced() && Model() == Stored(fs, i, off, buf[..copied])
      {
        block, copied := StoreNext(fs, i, off, buf, copied, block);
      }
      assert buf[..|buf|] == buf;
    }

    method StoreFirst(i: nat, off: nat, buf: seq<byte>) returns (block: u32, copied: nat)
      requires Shaped() && Synced() && Room(Model(), i, off + |buf|)
      modifies pokedex
      ensures copied <= |buf| && Room(old(Model()), i, off + |buf[..copied]|)
      ensures Cursor(old(Model()), i, off, |buf|, copied, block)
      ensures Synced() && Model() == Stored(old(Model()), i, off, buf[..copied])
    {
      hide Fs.Shape, Shaped, Synced, Model, WellFormed, Room, Stored, Cursor, Copied, DataPart, Agrees, Fs.Blocks;
      hide Fat.Chain, Fat.Linked, Fs.IsLive, Fs.IsRegular;
      ghost var fs := Model();
      copied := BLOCK_SIZE - off % BLOCK_SIZE;
      if |buf| < copied {
        copied := |buf|;
      }
      MinUnfold(BLOCK_SIZE - off % BLOCK_SIZE, |buf|);
      FirstPiece(fs, i, off, buf, copied);
      EntryOfModel(i);
      ModelParts();
      block := Fat.Follow(fat, fileTable[i].firstBlock, off / BLOCK_SIZE);
      if copied > 0 {
        StoreChunk(block, off % BLOCK_SIZE, buf[..copied]);
      } else {
        NothingToStore(fs, i, off, buf, block);
      }
    }

    method StoreNext(ghost fs: Fs, i: nat, off: nat, buf: seq<byte>, done: nat, last: u32) returns (block: u32, copied: nat)
      requires Shaped() && Synced()
      requires done < |buf| && Cursor(fs, i, off, |buf|, done, last) && Room(fs, i, off + |buf[..done]|)
      requires Model() == Stored(fs, i, off, buf[..done])
      modifies pokedex
      ensures done < copied <= |buf| && Cursor(fs, i, off, |buf|, copied, block)
      ensures Room(fs, i, off + |buf[..copied]|)
      ensures Synced() && Model() == Stored(fs, i, off, buf[..copied])
    {
      hide Fs.Shape, Shaped, Synced, Model, WellFormed, Room, Stored, Cursor, Copied, DataPart, Agrees, Fs.Blocks;
      var n := BLOCK_SIZE;
      if |buf| - done < BLOCK_SIZE {
        n := |buf| - done;
      }
      MinUnfold(BLOCK_SIZE, |buf| - done);
      NextPiece(fs, i, off, buf, done, last, n);
      ModelParts();
      if fat[last] == Fat.END {
        assert false;
      }
      block := fat[last];
      StoreChunk(block, 0, buf[done..done + n]);
      copied := done + n;
    }

    lemma ModelParts()
      requires Shaped()
      ensures Model().fat == fat[..] && fat.Length == |Model().fat| && Model().table == fileTable[..]
    {
    }

    /** is_parent on everything but the last component. */
    method FindFolder(path: seq<byte>) returns (folder: nat)
      requires IsPath(path)
      ensures folder == FolderOf(fileTable[..], path)
    {
      PathParts(path);
      if DirName(path) == [] {
        folder := ROOT;
      } else {
        folder := FindSlot(fileTable, DirName(path));
      }
    }

    /** The lowest deleted slot. */
    method FindFreeSlot() returns (libre: nat)
      ensures libre == FreeSlot(fileTable[..])
    {
      libre := 0;
      while libre < fileTable.Length && !fileTable[libre].state.Deleted?
        invariant libre <= fileTable.Length
        invariant forall j :: 0 <= j < libre ==> !fileTable[..][j].state.Deleted?
      {
        libre := libre + 1;
      }
    }

    method IsEmpty(folder: nat) returns (empty: bool)
      ensures empty == !HasLiveChild(fileTable[..], folder)
    {
      for i := 0 to fileTable.Length
        invariant forall j :: 0 <= j < i && IsLiveSlot(fileTable[..], j) ==> fileTable[..][j].parentDirectory != folder
      {
        if fileTable[i].parentDirectory == folder && !fileTable[i].state.Deleted? {
          assert IsLiveSlot(fileTable[..], i) && fileTable[..][i].parentDirectory == folder;
          return false;
        }
      }
      return true;
    }

    method Mkdir(path: seq<byte>, now: u32) returns (r: int)
      requires Valid() && Admissible(Model(), Request.Mkdir(path, now))
      modifies fileTable, pokedex
      ensures Valid() && (Model(), r) == Step(old(Model()), Request.Mkdir(path, now))
    {
      hide WellFormed, Synced, Forest, SlotsSafe, StepKeeps, FolderOf, First, FreeSlot;
      EveryStepKeeps(Model(), Request.Mkdir(path, now));
      PathParts(path);
      var name := BaseName(path);
      if |name| > FILENAME_LENGTH {
        return -ENAMETOOLONG;
      }
      var parent := FindFolder(path);
      if parent == MAX_FILES {
        return -ENOENT;
      }
      var libre := FindFreeSlot();
      if libre == MAX_FILES {
        return -ENOSPC;
      }
      var twin := Search(fileTable, parent, name, Only(Directory));
      if twin < MAX_FILES {
        return -EEXIST;
      }
      SetEntry(libre, OsadaFile(Directory, StrNCpy(name), parent, 0, now, Fat.END));
      r := 0;
    }

    method Rmdir(path: seq<byte>) returns (r: int)
      requires Valid() && Admissible(Model(), Request.Rmdir(path))
      modifies fileTable, pokedex
      ensures Valid() && (Model(), r) == Step(old(Model()), Request.Rmdir(path))
    {
      hide WellFormed, Synced, Forest, SlotsSafe, StepKeeps, FolderOf, First, HasLiveChild;
      EveryStepKeeps(Model(), Request.Rmdir(path));
      PathParts(path);
      var parent := FindFolder(path);
      if parent == MAX_FILES {
        return -ENOENT;
      }
      var pos := Search(fileTable, parent, BaseName(path), Only(Directory));
      if pos == MAX_FILES {
        return -ENOENT;
      }
      var empty := IsEmpty(pos);
      if !empty {
        return -ENOTEMPTY;
      }
      SetEntry(pos, fileTable[pos].(state := Deleted));
      r := 0;
    }

    method Rename(path: seq<byte>, to: seq<byte>, now: u32) returns (r: int)
      requires Valid() && Admissible(Model(), Request.Rename(path, to, now))
      modifies fileTable, pokedex
      ensures Valid() && (Model(), r) == Step(old(Model()), Request.Rename(path, to, now))
    {
      hide WellFormed, Synced, Forest, SlotsSafe, StepKeeps, FolderOf, First, IsParent;
      EveryStepKeeps(Model(), Request.Rename(path, to, now));
      PathParts(to);
      var name := BaseName(to);
      if |name| > FILENAME_LENGTH {
        return -ENAMETOOLONG;
      }
      var posFrom := FindSlot(fileTable, path);
      if posFrom == MAX_FILES || fileTable[posFrom].state.Deleted? {
        return -ENOENT;
      }
      var posTo := FindFolder(to);
      if posTo != ROOT && (posTo == MAX_FILES || fileTable[posTo].state.Deleted?) {
        return -ENOENT;
      }
      var twin := Search(fileTable, posTo, name, Live);
      if twin < MAX_FILES {
        return -EEXIST;
      }
      if locks[posFrom].Held() {
        return -EBUSY;
      }
      SetEntry(posFrom, fileTable[posFrom].(fname := StrNCpy(name), parentDirectory := posTo, lastmod := now));
      r := 0;
    }

    method Utimens(path: seq<byte>, lastmod: u32) returns (r: int)
      requires Valid() && Admissible(Model(), Request.Utimens(path, lastmod))
      modifies fileTable, pokedex
      ensures Valid() && (Model(), r) == Step(old(Model()), Request.Utimens(path, lastmod))
    {
      hide WellFormed, Synced, Forest, SlotsSafe, StepKeeps, IsParent;
      EveryStepKeeps(Model(), Request.Utimens(path, lastmod));
      var pos := FindSlot(fileTable, path);
      if pos == MAX_FILES || fileTable[pos].state.Deleted? {
        return -ENOENT;
      }
      SetEntry(pos, fileTable[pos].(lastmod := lastmod));
      r := 0;
    }

    method FindFile(path: seq<byte>) returns (pos: nat)
      requires IsPath(path) && fileTable.Length == MAX_FILES
      ensures pos == FileSlot(fileTable[..], path)
    {
      PathParts(path);
      var parent := FindFolder(path);
      if parent == MAX_FILES {
        return MAX_FILES;
      }
      pos := Search(fileTable, parent, BaseName(path), Only(Regular));
    }

    method SetLock(i: nat, lock: RwLock)
      requires Shaped() && Synced() && i < MAX_FILES
      modifies locks
      ensures Synced() && Model() == WithLock(old(Model()), i, lock)
    {
      locks[i] := lock;
    }

    method Open(path: seq<byte>, flags: int) returns (r: int)
      requires Valid() && Admissible(Model(), Request.Open(path, flags))
      modifies bitmap, fat, fileTable, locks, pokedex
      ensures Valid() && (Model(), r) == Step(old(Model()), Request.Open(path, flags))
    {
      hide WellFormed, Synced, Forest, SlotsSafe, StepKeeps, FileSlot, Cut, IsParent, SameFiles;
      ghost var fs := Model();
      EveryStepKeeps(fs, Request.Open(path, flags));
      var pos := FindFile(path);
      if pos == MAX_FILES {
        return -ENOENT;
      }
      if flags == 0 {
        if locks[pos].writer {
          return -EBUSY;
        }
        SetLock(pos, RwLock(locks[pos].readers + 1, false));
      } else {
        if locks[pos].Held() {
          return -EBUSY;
        }
        WithLockKeeps(fs, pos, RwLock(0, true));
        LockFrame(fs, pos, RwLock(0, true));
        StepKeepsGood(fs, WithLock(fs, pos, RwLock(0, true)));
        SetLock(pos, RwLock(0, true));
        if flags == 2 {
          r := Ftruncate(path, 0);
          return r;
        }
      }
      r := 0;
    }

    method Release(path: seq<byte>) returns (r: int)
      requires Valid() && Admissible(Model(), Request.Release(path))
      modifies locks
      ensures Valid() && (Model(), r) == Step(old(Model()), Request.Release(path))
    {
      hide WellFormed, Synced, Forest, SlotsSafe, StepKeeps, FileSlot;
      EveryStepKeeps(Model(), Request.Release(path));
      var pos := FindFile(path);
      if pos == MAX_FILES {
        return -ENOENT;
      }
      SetLock(pos, Unlocked(locks[pos]));
      r := 0;
    }

    /** All of the image but the bitmap, the links and the file table repeats the memory. */
    ghost predicate HeaderInPlace()
      requires Shaped()
      reads pokedex
    {
      WholeImage(pokedex[..]) && HeaderOf(pokedex[..]) == geo
    }

    method SyncAll()
      requires Shaped() && HeaderInPlace()
      modifies pokedex
      ensures Synced() && DataPart(pokedex[..], geo) == old(DataPart(pokedex[..], geo))
    {
      hide PutBitmap, GetBitmap, PutFat, PutTable, TablePart, FatPart, BitmapPart, DataPart, HeaderOf;
      SyncBitmap();
      SyncTable();
      SyncFat();
      HeaderInFirstBlock(old(pokedex[..]), pokedex[..]);
    }

    /** The last part of osada_create: the entry, its block, and the three memcpys. */
    method PlaceFile(libre: nat, e: OsadaFile, block: u32)
      requires Shaped() && Synced() && libre < MAX_FILES && block < fat.Length
      modifies bitmap, fat, fileTable, pokedex
      ensures Synced() && Model() == Placed(old(Model()), libre, e, block)
    {
      hide PutBitmap, GetBitmap, PutFat, PutTable, TablePart, FatPart, BitmapPart, DataPart, HeaderOf, Bitmap.Bits;
      fileTable[libre] := e;
      Bitmap.SetBitmap(bitmap, block + geo.DataOffset());
      fat[block] := Fat.END;
      assert fileTable[..] == old(fileTable[..])[libre := e];
      assert fat[..] == old(fat[..])[block := Fat.END];
      SyncAll();
    }

    method Create(path: seq<byte>, now: u32) returns (r: int)
      requires Valid() && Admissible(Model(), Request.Create(path, now))
      modifies bitmap, fat, fileTable, pokedex
      ensures Valid() && (Model(), r) == Step(old(Model()), Request.Create(path, now))
    {
      hide Sound, Sized, Synced, Forest, SlotsSafe, StepKeeps, FolderOf, First, FreeSlot, NewFile, Placed;
      hide Fs.FreeBlocks, Fs.DataBits, Fs.Shape;
      ghost var fs := Model();
      EveryStepKeeps(fs, Request.Create(path, now));
      PathParts(path);
      var name := BaseName(path);
      if |name| > FILENAME_LENGTH {
        return -ENAMETOOLONG;
      }
      var parent := FindFolder(path);
      if parent == MAX_FILES {
        return -ENOENT;
      }
      var libre := FindFreeSlot();
      if libre == MAX_FILES {
        return -ENOSPC;
      }
      var twin := Search(fileTable, parent, name, Only(Regular));
      if twin < MAX_FILES {
        return -EEXIST;
      }
      NewFileUnfold(fs, libre, StrNCpy(name), parent, now);
      var firstBlock := FreeBlock();
      if firstBlock == -1 {
        return -ENOSPC;
      }
      PlaceFile(libre, OsadaFile(Regular, StrNCpy(name), parent, 0, now, firstBlock), firstBlock);
      r := 0;
    }

    /** The freeing loop of osada_unlink. */
    method CleanChain(first: u32)
      requires Shaped() && Fat.Linked(fat[..], Fat.Chain(fat[..], first))
      requires forall k :: 0 <= k < |Fat.Chain(fat[..], first)| ==>
        0 <= geo.DataOffset() + Fat.Chain(fat[..], first)[k] < 8 * bitmap.Length
      modifies bitmap
      ensures Bitmap.Bits(bitmap[..])
           == Cleared(old(Bitmap.Bits(bitmap[..])), geo.DataOffset(), Fat.Chain(fat[..], first))
    {
      hide Bitmap.Bits;
      ghost var c := Fat.Chain(fat[..], first);
      ghost var k := 0;
      var block := first;
      while block != Fat.END
        invariant 0 <= k <= |c| && block == if k < |c| then c[k] else Fat.END
        invariant Bitmap.Bits(bitmap[..]) == Cleared(old(Bitmap.Bits(bitmap[..])), geo.DataOffset(), c[..k])
        decreases |c| - k
      {
        Bitmap.CleanBitmap(bitmap, geo.DataOffset() + block);
        assert c[..k + 1][..k] == c[..k];
        block := fat[block];
        k := k + 1;
      }
      assert c[..|c|] == c;
    }

    /** What osada_unlink does once it has found the slot and its lock free. */
    method DropSlot(i: nat)
      requires Shaped() && Synced() && Sound(Model()) && Model().IsRegular(i)
      modifies bitmap, fileTable, pokedex
      ensures Synced() && Model() == DropFile(old(Model()), i)
    {
      hide PutBitmap, GetBitmap, PutFat, PutTable, TablePart, FatPart, BitmapPart, DataPart, HeaderOf, Bitmap.Bits;
      hide Sound, Fs.Blocks, Fat.Linked, Fat.Chain, Cleared, DropFile;
      DropFileUnfold(Model(), i);
      fileTable[i] := fileTable[i].(state := Deleted);
      assert fileTable[..] == old(fileTable[..])[i := old(fileTable[i]).(state := Deleted)];
      CleanChain(fileTable[i].firstBlock);
      SyncBitmap();
      SyncTable();
      HeaderInFirstBlock(old(pokedex[..]), pokedex[..]);
    }

    method Unlink(path: seq<byte>) returns (r: int)
      requires Valid() && Admissible(Model(), Request.Unlink(path))
      modifies bitmap, fileTable, pokedex
      ensures Valid() && (Model(), r) == Step(old(Model()), Request.Unlink(path))
    {
      hide Sound, Sized, Synced, Forest, SlotsSafe, StepKeeps, IsParent, DropFile;
      EveryStepKeeps(Model(), Request.Unlink(path));
      var pos := FindSlot(fileTable, path);
      if pos == MAX_FILES || fileTable[pos].state.Deleted? {
        return -ENOENT;
      }
      if locks[pos].Held() {
        return -EBUSY;
      }
      DropSlot(pos);
      r := 0;
    }

    /** One turn of the switch in procesar_cliente. */
    method Dispatch(req: Request) returns (r: int)
      requires Valid() && Admissible(Model(), req)
      modifies bitmap, fat, fileTable, locks, pokedex
      ensures Valid() && (Model(), r) == Step(old(Model()), req)
    {
      hide *;
      match req
      case Create(path, now) => r := Create(path, now);
      case Mkdir(path, now) => r := Mkdir(path, now);
      case Rmdir(path) => r := Rmdir(path);
      case Rename(path, to, now) => r := Rename(path, to, now);
      case Unlink(path) => r := Unlink(path);
      case Ftruncate(path, size) => r := Ftruncate(path, size);
      case Write(path, offset, buf) => r := Write(path, offset, buf);
      case Open(path, flags) => r := Open(path, flags);
      case Release(path) => r := Release(path);
      case Utimens(path, lastmod) => r := Utimens(path, lastmod);
    }

    /** procesar_cliente: request after request, an answer for each. */
    method Serve(reqs: seq<Request>) returns (answers: seq<int>)
      requires Valid() && AdmissibleRun(Model(), reqs)
      modifies bitmap, fat, fileTable, locks, pokedex
      ensures Valid() && Model() == Run(old(Model()), reqs) && answers == Answers(old(Model()), reqs)
      ensures Load(pokedex[..]) == Model().(locks := seq(MAX_FILES, _ => RwLock(0, false)))
    {
      hide *;
      ValidIsGood();
      ghost var fs := Model();
      answers := [];
      var k := 0;
      assert reqs[0..] == reqs;
      while k < |reqs|
        invariant 0 <= k <= |reqs|
        invariant Valid() && Good(Model()) && AdmissibleRun(Model(), reqs[k..])
        invariant Run(Model(), reqs[k..]) == Run(fs, reqs)
        invariant answers + Answers(Model(), reqs[k..]) == Answers(fs, reqs)
      {
        assert reqs[k..][0] == reqs[k] && reqs[k..][1..] == reqs[k + 1..];
        RunUnfold(Model(), reqs[k..]);
        var r := Dispatch(reqs[k]);
        ValidIsGood();
        answers := answers + [r];
        k := k + 1;
      }
      RunUnfold(Model(), reqs[k..]);
      ReloadGivesModel();
    }

    /** Stopping the server and loading the image again loses nothing but the locks. */
    lemma ReloadGivesModel()
      requires Valid()
      ensures WholeImage(pokedex[..])
      ensures Load(pokedex[..]) == Model().(locks := seq(MAX_FILES, _ => RwLock(0, false)))
    {
      hide Good, Load, Bitmap.Bits, DataPart, PutBitmap, PutFat, PutTable;
      ReloadIsExact(pokedex[..], geo, bitmap[..], fileTable[..], fat[..]);
    }

    lemma ValidIsGood()
      requires Valid()
      ensures Shaped() && Good(Model())
    {
      hide Good, Synced;
    }

    /** The load and layout part of main: memory is filled from the image. */
    constructor (img: array<byte>)
      requires WellFormedImage(img[..])
      ensures Valid() && pokedex == img && Model() == Load(img[..])
      ensures fresh(bitmap) && fresh(fileTable) && fresh(fat) && fresh(locks)
    {
      hide Good, Bitmap.Bits, GetBitmap, GetTable, GetFat, Slice, HeaderOf, Agrees;
      var g := HeaderOf(img[..]);
      geo := g;
      pokedex := img;
      var bits := GetBitmap(BitmapPart(img[..], g));
      var table := GetTable(TablePart(img[..], g), MAX_FILES);
      var links := GetFat(FatPart(img[..], g), g.dataBlocks);
      bitmap := new bv8[|bits|](k requires 0 <= k < |bits| => bits[k]);
      fileTable := new OsadaFile[|table|](k requires 0 <= k < |table| => table[k]);
      fat := new u32[|links|](k requires 0 <= k < |links| => links[k]);
      locks := new RwLock[MAX_FILES](_ => RwLock(0, false));
      new;
      assert bitmap[..] == bits && fileTable[..] == table && fat[..] == links;
      assert locks[..] == seq(MAX_FILES, _ => RwLock(0, false));
      LoadedAgrees(img[..]);
    }

    /** check_state: the slots whose chain is not as long as their size asks for. */
    method CheckState() returns (bad: seq<nat>)
      requires Shaped() && Sound(Model())
      ensures forall i: nat :: i in bad <==> i < MAX_FILES && !SizedAt(Model(), i)
      ensures bad == [] <==> Sized(Model())
    {
      hide Sound, Sized, Fs.Blocks, Bitmap.Bits, DataPart;
      bad := [];
      for i := 0 to MAX_FILES
        invariant forall j: nat :: j in bad <==> j < i && !SizedAt(Model(), j)
      {
        if fileTable[i].state.Regular? {
          var blocks := CountBlocks(i);
          var size := fileTable[i].fileSize / BLOCK_SIZE;
          if fileTable[i].fileSize % BLOCK_SIZE != 0 || fileTable[i].fileSize == 0 {
            size := size + 1;
          }
          if blocks != size {
            bad := bad + [i];
          }
        }
      }
      SizedIffAll(Model());
      if bad != [] {
        assert bad[0] in bad;
      }
    }

    method CountBlocks(i: nat) returns (n: nat)
      requires Shaped() && Sound(Model()) && Model().IsRegular(i)
      ensures n == |Model().Blocks(i)|
    {
      hide Owned, Bitmap.Bits, DataPart, Fat.Chain;
      ghost var c := Model().Blocks(i);
      assert Fat.Linked(Model().fat, c) && c[0] == fileTable[i].firstBlock by {
        Fat.ChainStarts(Model().fat, fileTable[i].firstBlock);
      }
      n := 0;
      var block := fileTable[i].firstBlock;
      while block != Fat.END
        invariant n <= |c| && block == if n < |c| then c[n] else Fat.END
        decreases |c| - n
      {
        block := fat[block];
        n := n + 1;
      }
    }

    /** Bytes of one data block, as memcpy reads them from the image. */
    method Fetch(block: u32, rem: nat, n: nat) returns (bytes: seq<byte>)
      requires Shaped() && block < fat.Length && rem + n <= BLOCK_SIZE
      ensures BLOCK_SIZE * block + rem + n <= |Model().data|
      ensures bytes == Model().data[BLOCK_SIZE * block + rem..BLOCK_SIZE * block + rem + n]
    {
      hide Bitmap.Bits, DataPart, Fs.Shape;
      var at := (geo.DataOffset() + block) * BLOCK_SIZE + rem;
      SliceOfData(pokedex[..], geo, BLOCK_SIZE * block + rem, n);
      bytes := pokedex[at..at + n];
      assert bytes == pokedex[..][at..at + n];
    }

    /** The first piece of a read, and the block it came from. */
    method FetchFirst(i: nat, offset: nat, size: nat) returns (block: u32, bytes: seq<byte>)
      requires Shaped() && WellFormed(Model()) && Model().IsRegular(i)
      requires offset + size <= Model().table[i].fileSize
      ensures |bytes| == Min(BLOCK_SIZE - offset % BLOCK_SIZE, size)
      ensures bytes == FileContent(Model(), i)[offset..offset + |bytes|]
      ensures ReadCursor(Model(), i, offset, size, |bytes|, block)
    {
      hide WellFormed, Fs.Blocks, FileContent, Model, Fat.Linked, Fat.Chain;
      ghost var fs := Model();
      RegularIsLive(fs, i);
      EntryOfModel(i);
      ModelParts();
      ReadStart(fs, i, offset, size);
      block := Fat.Follow(fat, fileTable[i].firstBlock, offset / BLOCK_SIZE);
      var n := BLOCK_SIZE - offset % BLOCK_SIZE;
      if size < n {
        n := size;
      }
      if n > 0 {
        PieceOfContent(fs, i, offset, n);
        bytes := Fetch(block, offset % BLOCK_SIZE, n);
      } else {
        bytes := [];
      }
    }

    /** Any later piece: the link is followed, and a whole block read, or what is left. */
    method FetchNext(i: nat, offset: nat, size: nat, copied: nat, last: u32) returns (block: u32, bytes: seq<byte>)
      requires Shaped() && WellFormed(Model()) && Model().IsRegular(i)
      requires offset + size <= Model().table[i].fileSize
      requires copied < size && ReadCursor(Model(), i, offset, size, copied, last)
      ensures |bytes| == Min(BLOCK_SIZE, size - copied)
      ensures bytes == FileContent(Model(), i)[offset + copied..offset + copied + |bytes|]
      ensures ReadCursor(Model(), i, offset, size, copied + |bytes|, block)
    {
      hide WellFormed, Fs.Blocks, FileContent, Model, ReadCursor;
      ModelParts();
      var n := BLOCK_SIZE;
      if size - copied < BLOCK_SIZE {
        n := size - copied;
      }
      ReadGoesOn(Model(), i, offset, size, copied, last, n);
      if last == Fat.END {
        assert false;
      }
      block := fat[last];
      bytes := Fetch(block, 0, n);
    }

    /** The sending part of osada_read: packets of up to four blocks, the last one marked. */
    method SendPieces(i: nat, offset: nat, size: nat) returns (copied: nat, sent: seq<Reply>)
      requires Shaped() && WellFormed(Model()) && SlotsSafe(Model()) && Model().IsRegular(i)
      requires offset + size <= Model().table[i].fileSize
      ensures copied == size && Complete(sent, FileContent(Model(), i)[offset..offset + size])
    {
      hide WellFormed, Fs.IsRegular, FileContent, Model, ReadCursor, Complete, Cutting;
      ghost var s := FileContent(Model(), i)[offset..offset + size];
      var block, msg := FetchFirst(i, offset, size);
      copied := |msg|;
      sent := [];
      var k := 0;
      CuttingStarts(FileContent(Model(), i), offset, size, msg);
      while copied < size
        invariant copied <= size && ReadCursor(Model(), i, offset, size, copied, block)
        invariant Cutting(s, copied, k, sent, msg)
      {
        k := k + 1;
        if k % 4 == 0 {
          sent := sent + [Data(1, msg)];
          msg := [];
        }
        ghost var before := copied;
        var bytes;
        block, bytes := FetchNext(i, offset, size, copied, block);
        CuttingGoesOn(FileContent(Model(), i), offset, size, before, k - 1,
          if k % 4 == 0 then sent[..|sent| - 1] else sent, if k % 4 == 0 then sent[|sent| - 1].bytes else msg, bytes);
        copied := copied + |bytes|;
        msg := msg + bytes;
      }
      CuttingEnds(s, copied, k, sent, msg);
      if k == 0 {
        sent := [Data(0, msg)];
      } else if |msg| != 0 {
        sent := sent + [Data(0, msg)];
      }
    }

    /** osada_read: what it returns and the packets it sends, or the reply procesar_cliente makes of an error. */
    method Read(path: seq<byte>, size: nat, offset: nat) returns (r: int, sent: seq<Reply>)
      requires Valid() && IsPath(path) && offset + size < 0x1_0000_0000
      requires MayReadFrom(Model(), IsParent(Model().table, path), offset)
      ensures var fs, i := Model(), IsParent(Model().table, path);
        if !fs.IsRegular(i) then
          r == -ENOENT && sent == [Error(size, -ENOENT)]
        else
          r == |ReadBytes(fs, i, size, offset)| && Complete(sent, ReadBytes(fs, i, size, offset))
    {
      hide WellFormed, Synced, Forest, SlotsSafe, IsParent, FileContent, Complete;
      var pos := FindSlot(fileTable, path);
      if pos == MAX_FILES || !fileTable[pos].state.Regular? {
        return -ENOENT, [Error(size, -ENOENT)];
      }
      var n := size;
      if fileTable[pos].fileSize < offset + size {
        n := fileTable[pos].fileSize - offset;
      }
      r, sent := SendPieces(pos, offset, n);
    }
  }
}

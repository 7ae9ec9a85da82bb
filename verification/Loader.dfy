/** The hot-reloading config loader (internal/config/loader.go). */
module Loader {
  import opened Wrappers
  import opened ConfigModel

  /** Library code the loader calls: the JSON decoder, SHA-256 and the string parsers. */
  datatype Codec = Codec(decode: string -> Option<Config>, checksum: string -> string, parsers: Parsers)

  /** What one read of the config file returns. The loader reads the file twice per load, once for
      the checksum and once for the content, and the file may change in between. */
  datatype FileRead = Unreadable | Bytes(content: string)

  datatype ConfigSource = SourceFile | SourceControlPlane

  datatype LoadError = Unparsable | Invalid(error: ValidationError) | NoChecksum

  /** The loader's atomic cells; a cell is None until its first store. */
  datatype Cells = Cells(active: Option<Config>, source: Option<ConfigSource>, lastChecksum: Option<string>)

  ghost predicate Injective(f: string -> string) {
    forall x, y {:trigger f(x), f(y)} :: f(x) == f(y) ==> x == y
  }

  /** Content the loader would accept. */
  ghost predicate Good(codec: Codec, content: string) {
    codec.decode(content).Some? && WellFormed(codec.parsers, codec.decode(content).value)
  }

  ghost predicate GoodRead(codec: Codec, f: FileRead) {
    f.Bytes? && Good(codec, f.content)
  }

  ghost function Parsed(codec: Codec, content: string): Config
    requires Good(codec, content)
  {
    codec.decode(content).value
  }

  /** A tick swaps in a new config when the checksum moved and the content is acceptable. */
  ghost predicate Swaps(codec: Codec, c: Cells, checksumRead: FileRead, loadRead: FileRead) {
    && checksumRead.Bytes?
    && c.lastChecksum != Some(codec.checksum(checksumRead.content))
    && GoodRead(codec, loadRead)
  }

  /** One polling tick: `checksumRead` is what line 146 sees, `loadRead` what line 159 sees. */
  ghost function Tick(codec: Codec, c: Cells, checksumRead: FileRead, loadRead: FileRead): Cells {
    if Swaps(codec, c, checksumRead, loadRead)
    then Cells(Some(Parsed(codec, loadRead.content)), Some(SourceFile), Some(codec.checksum(checksumRead.content)))
    else c
  }

  class Loader {
    const codec: Codec
    var activeConfig: Option<Config>
    var configSource: Option<ConfigSource>
    var lastChecksum: Option<string>
    var lastReload: Option<int>

    ghost function View(): Cells
      reads this
    {
      Cells(activeConfig, configSource, lastChecksum)
    }

    constructor (codec: Codec)
      ensures this.codec == codec && View() == Cells(None, None, None) && lastReload.None?
    {
      this.codec := codec;
      activeConfig, configSource, lastChecksum, lastReload := None, None, None, None;
    }

    /** `LoadFromFile` followed by `Validate`. */
    method LoadAndValidate(f: FileRead) returns (r: Result<Config, LoadError>)
      ensures r.Success? <==> GoodRead(codec, f)
      ensures r.Success? ==> r.value == Parsed(codec, f.content)
      ensures r.Failure? ==> r.error != NoChecksum
    {
      if f.Unreadable? || codec.decode(f.content).None? {
        return Failure(Unparsable);
      }
      var cfg := codec.decode(f.content).value;
      var err := Validate(codec.parsers, cfg);
      if err.Some? {
        return Failure(Invalid(err.value));
      }
      return Success(cfg);
    }

    /** At startup the content is read first and the checksum second. */
    method LoadInitial(loadRead: FileRead, checksumRead: FileRead, now: int) returns (err: Option<LoadError>)
      modifies this
      ensures err.None? <==> GoodRead(codec, loadRead) && checksumRead.Bytes?
      ensures err.None? ==>
                && View() == Cells(Some(Parsed(codec, loadRead.content)), Some(SourceFile),
                                   Some(codec.checksum(checksumRead.content)))
                && lastReload == Some(now)
      ensures err.Some? ==> View() == old(View()) && lastReload == old(lastReload)
    {
      var loaded := LoadAndValidate(loadRead);
      if loaded.Failure? {
        return Some(loaded.error);
      }
      if checksumRead.Unreadable? {
        return Some(NoChecksum);
      }
      activeConfig := Some(loaded.value);
      configSource := Some(SourceFile);
      lastChecksum := Some(codec.checksum(checksumRead.content));
      lastReload := Some(now);
      return None;
    }

    /** The last checksum is asserted to be a string, so a successful `LoadInitial` must come first. */
    method TryReload(checksumRead: FileRead, loadRead: FileRead, now: int)
      requires lastChecksum.Some?
      modifies this
      ensures View() == Tick(codec, old(View()), checksumRead, loadRead)
      ensures lastReload == if Swaps(codec, old(View()), checksumRead, loadRead) then Some(now) else old(lastReload)
      ensures var swap := checksumRead.Bytes? && codec.checksum(checksumRead.content) != old(lastChecksum).value
                          && GoodRead(codec, loadRead);
              && activeConfig == (if swap then codec.decode(loadRead.content) else old(activeConfig))
              && configSource == (if swap then Some(SourceFile) else old(configSource))
              && lastChecksum == (if swap then Some(codec.checksum(checksumRead.content)) else old(lastChecksum))
    {
      if checksumRead.Unreadable? {
        return;
      }
      var currentChecksum := codec.checksum(checksumRead.content);
      if currentChecksum == lastChecksum.value {
        return;
      }
      var loaded := LoadAndValidate(loadRead);
      if loaded.Failure? {
        return;
      }
      activeConfig := Some(loaded.value);
      configSource := Some(SourceFile);
      lastChecksum := Some(currentChecksum);
      lastReload := Some(now);
    }

    /** Stores whatever it is given: no validation, and the checksum cell is left alone. */
    method ApplyConfig(cfg: Config, now: int)
      modifies this
      ensures View() == old(View()).(active := Some(cfg), source := Some(SourceControlPlane))
      ensures lastReload == Some(now)
    {
      activeConfig := Some(cfg);
      configSource := Some(SourceControlPlane);
      lastReload := Some(now);
    }
  }

  // ---- runs of the polling loop --------------------------------------------------------------

  /** Ticks that each read one file content twice, oldest first. */
  ghost function PollFiles(codec: Codec, c: Cells, files: seq<FileRead>): Cells {
    if files == [] then c
    else
      var last := files[|files| - 1];
      Tick(codec, PollFiles(codec, c, files[..|files| - 1]), last, last)
  }

  /** The reference: a loader without a checksum, which decodes and validates on every tick. */
  ghost function NaivePoll(codec: Codec, active: Option<Config>, files: seq<FileRead>): Option<Config> {
    if files == [] then active
    else if GoodRead(codec, files[|files| - 1]) then Some(Parsed(codec, files[|files| - 1].content))
    else NaivePoll(codec, active, files[..|files| - 1])
  }

  /** Position of the most recent acceptable read, without recursion. */
  ghost predicate LastGood(codec: Codec, files: seq<FileRead>, i: int) {
    0 <= i < |files| && GoodRead(codec, files[i]) && forall j :: i < j < |files| ==> !GoodRead(codec, files[j])
  }

  /** The checksum cell is the checksum of some content that, if acceptable at all, decodes to the
      active config. This is what skipping a tick relies on. */
  ghost predicate Coherent(codec: Codec, c: Cells, content: string) {
    && c.lastChecksum == Some(codec.checksum(content))
    && (Good(codec, content) ==> c.active == Some(Parsed(codec, content)))
  }

  /** From a coherent state the gate changes nothing: after every tick of every file history the
      active config is the naive loader's, and the state is coherent again. */
  lemma {:induction false} GateRefinesNaive(codec: Codec, c: Cells, content: string, files: seq<FileRead>)
    returns (last: string)
    requires Injective(codec.checksum) && Coherent(codec, c, content)
    ensures PollFiles(codec, c, files).active == NaivePoll(codec, c.active, files)
    ensures Coherent(codec, PollFiles(codec, c, files), last)
    ensures last == content || (Bytes(last) in files && Good(codec, last))
  {
    if files == [] {
      return content;
    }
    var n := |files| - 1;
    last := GateRefinesNaive(codec, c, content, files[..n]);
    if files[n].Bytes? && codec.checksum(files[n].content) != codec.checksum(last) && GoodRead(codec, files[n]) {
      last := files[n].content;
    }
  }

  lemma {:induction false} LastGoodBefore(codec: Codec, files: seq<FileRead>, i: int)
    requires LastGood(codec, files, i) && i != |files| - 1
    ensures LastGood(codec, files[..|files| - 1], i) && files[..|files| - 1][i] == files[i]
    ensures !GoodRead(codec, files[|files| - 1])
  {
  }

  /** The naive loader's config is the most recent acceptable content, or the one it started with. */
  lemma {:induction false} NaiveIsLastGood(codec: Codec, active: Option<Config>, files: seq<FileRead>)
    ensures forall i :: LastGood(codec, files, i) ==>
                          NaivePoll(codec, active, files) == Some(Parsed(codec, files[i].content))
    ensures (forall i :: 0 <= i < |files| ==> !GoodRead(codec, files[i])) ==>
              NaivePoll(codec, active, files) == active
  {
    if files == [] {
    } else {
      var n := |files| - 1;
      NaiveIsLastGood(codec, active, files[..n]);
      forall i | LastGood(codec, files, i)
        ensures NaivePoll(codec, active, files) == Some(Parsed(codec, files[i].content))
      {
        if i != n {
          LastGoodBefore(codec, files, i);
        }
      }
    }
  }

  /** After a startup that read the same content twice, the active config is always the most recent
      acceptable content seen, starting from the initial one, and the checksum cell belongs to the
      content the active config was decoded from. */
  lemma {:induction false} ReloadTracksLastGood(codec: Codec, initial: string, files: seq<FileRead>)
    requires Injective(codec.checksum) && Good(codec, initial)
    ensures var start := Cells(Some(Parsed(codec, initial)), Some(SourceFile), Some(codec.checksum(initial)));
            var end := PollFiles(codec, start, files);
            && (forall i :: LastGood(codec, files, i) ==> end.active == Some(Parsed(codec, files[i].content)))
            && ((forall i :: 0 <= i < |files| ==> !GoodRead(codec, files[i])) ==> end == start)
            && (exists x :: Good(codec, x) && end.active == Some(Parsed(codec, x))
                            && end.lastChecksum == Some(codec.checksum(x)))
  {
    var start := Cells(Some(Parsed(codec, initial)), Some(SourceFile), Some(codec.checksum(initial)));
    var last := GateRefinesNaive(codec, start, initial, files);
    assert Good(codec, last);
    NaiveIsLastGood(codec, start.active, files);
    if forall i :: 0 <= i < |files| ==> !GoodRead(codec, files[i]) {
      PollRejecting(codec, start, files);
    }
  }

  lemma {:induction false} PollRejecting(codec: Codec, c: Cells, files: seq<FileRead>)
    requires forall i :: 0 <= i < |files| ==> !GoodRead(codec, files[i])
    ensures PollFiles(codec, c, files) == c
  {
    if files == [] {
    } else {
      PollRejecting(codec, c, files[..|files| - 1]);
    }
  }

  // ---- a file replaced between the two reads -------------------------------------------------

  /** A load whose content read saw `loaded` and whose checksum read saw `summed` leaves the loader
      equivalent to the naive one, on every later file history, exactly when `summed` is content
      the loader would reject or decodes to the same config. */
  lemma TornLoadIff(codec: Codec, loaded: string, summed: string)
    requires Injective(codec.checksum) && Good(codec, loaded)
    ensures var c := Cells(Some(Parsed(codec, loaded)), Some(SourceFile), Some(codec.checksum(summed)));
            (forall files :: PollFiles(codec, c, files).active == NaivePoll(codec, c.active, files))
            <==> (Good(codec, summed) ==> Parsed(codec, summed) == Parsed(codec, loaded))
  {
    var c := Cells(Some(Parsed(codec, loaded)), Some(SourceFile), Some(codec.checksum(summed)));
    if Good(codec, summed) && Parsed(codec, summed) != Parsed(codec, loaded) {
      PollStuck(codec, c, summed, 1);
      var files := seq(1, _ => Bytes(summed));
      assert PollFiles(codec, c, files).active != NaivePoll(codec, c.active, files);
    } else {
      forall files
        ensures PollFiles(codec, c, files).active == NaivePoll(codec, c.active, files)
      {
        var _ := GateRefinesNaive(codec, c, summed, files);
      }
    }
  }

  /** While the file keeps the content whose checksum is recorded, no tick ever loads it: after a
      torn load the stale config stays active for as long as the file is left alone. */
  lemma {:induction false} PollStuck(codec: Codec, c: Cells, summed: string, ticks: nat)
    requires c.lastChecksum == Some(codec.checksum(summed))
    ensures PollFiles(codec, c, seq(ticks, _ => Bytes(summed))) == c
  {
    if ticks == 0 {
    } else {
      var files := seq(ticks, _ => Bytes(summed));
      PollStuck(codec, c, summed, ticks - 1);
      assert files[..ticks - 1] == seq(ticks - 1, _ => Bytes(summed));
    }
  }
}

/**
 Reading an upload once: the first 512 bytes are sniffed, put back in front of the rest, and
 the whole is hashed while it is copied to the spool file, whatever chunks the network yields.
 */
module Streaming {
  import opened Metadata

  const SNIFF_BUFFER_SIZE := 512

  // How the source answers one Read: some bytes, perhaps with EOF already attached to the
  // last of them, or an error after some bytes.
  datatype Answer = Chunk(size: nat, eager: bool) | Broken(size: nat)

  datatype ReadError = NoError | EOF | Failure

  function Clip(a: nat, b: nat): nat {
    if a < b then a else b
  }

  ghost predicate Reliable(script: seq<Answer>) {
    forall i | 0 <= i < |script| :: script[i].Chunk?
  }

  // The request body. `script` says how it will be cut up; past it, reads fill the buffer.
  class Source {
    var data: Bytes
    var script: seq<Answer>

    constructor (data: Bytes, script: seq<Answer>)
      ensures this.data == data && this.script == script
    {
      this.data, this.script := data, script;
    }

    method Read(max: nat) returns (chunk: Bytes, err: ReadError)
      requires max > 0
      modifies this
      ensures chunk + data == old(data) && |chunk| <= max
      ensures err == EOF ==> data == []
      ensures err == Failure ==> !Reliable(old(script))
      ensures err == NoError ==> |script| + |data| < |old(script)| + |old(data)|
      ensures |script| <= |old(script)| && (Reliable(old(script)) ==> Reliable(script))
    {
      var answer := Chunk(max, false);
      if script != [] {
        answer := script[0];
        script := script[1..];
      }
      var n := Clip(answer.size, Clip(max, |data|));
      chunk, data := data[..n], data[n..];
      if answer.Broken? {
        err := Failure;
      } else if data == [] && (n == 0 || answer.eager) {
        err := EOF;
      } else {
        err := NoError;
      }
    }
  }

  // io.ReadFull; the caller treats a short read at the end of the source as success.
  method ReadFull(source: Source, size: nat) returns (buffer: Bytes, ok: bool)
    modifies source
    ensures buffer + source.data == old(source.data) && |buffer| <= size
    ensures ok ==> |buffer| == size || source.data == []
    ensures Reliable(old(source.script)) ==> ok && Reliable(source.script)
  {
    buffer := [];
    var err := NoError;
    while |buffer| < size && err == NoError
      invariant |buffer| <= size && buffer + source.data == old(source.data)
      invariant err == EOF ==> source.data == []
      invariant Reliable(old(source.script)) ==> Reliable(source.script) && err != Failure
      decreases err == NoError, |source.script| + |source.data|
    {
      var chunk;
      chunk, err := source.Read(size - |buffer|);
      buffer := buffer + chunk;
    }
    ok := |buffer| >= size || err == EOF;
  }

  // io.MultiReader over the sniffed bytes and the rest of the source.
  class MultiReader {
    var prefix: Bytes
    const rest: Source

    constructor (prefix: Bytes, rest: Source)
      ensures this.prefix == prefix && this.rest == rest
    {
      this.prefix, this.rest := prefix, rest;
    }

    ghost function Pending(): Bytes
      reads this, rest
    {
      prefix + rest.data
    }

    ghost function Effort(): nat
      reads this, rest
    {
      |prefix| + |rest.data| + |rest.script|
    }

    method Read(max: nat) returns (chunk: Bytes, err: ReadError)
      requires max > 0
      modifies this, rest
      ensures chunk + Pending() == old(Pending())
      ensures err == EOF ==> Pending() == []
      ensures err == Failure ==> !Reliable(old(rest.script))
      ensures err == NoError ==> Effort() < old(Effort())
      ensures Reliable(old(rest.script)) ==> Reliable(rest.script)
    {
      if prefix != [] {
        var n := Clip(max, |prefix|);
        chunk, prefix := prefix[..n], prefix[n..];
        err := NoError;
      } else {
        chunk, err := rest.Read(max);
      }
    }
  }

  // Every byte that passes is also written to the hash.
  class ChecksummingReader {
    const source: MultiReader
    var hashed: Bytes

    constructor (source: MultiReader)
      ensures this.source == source && hashed == []
    {
      this.source, hashed := source, [];
    }

    method Read(max: nat) returns (chunk: Bytes, err: ReadError)
      requires max > 0
      modifies this, source, source.rest
      ensures chunk + source.Pending() == old(source.Pending()) && hashed == old(hashed) + chunk
      ensures err == EOF ==> source.Pending() == []
      ensures err == Failure ==> !Reliable(old(source.rest.script))
      ensures err == NoError ==> source.Effort() < old(source.Effort())
      ensures Reliable(old(source.rest.script)) ==> Reliable(source.rest.script)
    {
      chunk, err := source.Read(max);
      if |chunk| > 0 {
        hashed := hashed + chunk;
      }
    }
  }

  const COPY_BUFFER_SIZE := 32768

  // io.Copy to the spool file, whose writes may fail unless `diskOk`.
  method Copy(reader: ChecksummingReader, diskOk: bool) returns (spooled: Bytes, ok: bool)
    modifies reader, reader.source, reader.source.rest
    ensures reader.hashed == old(reader.hashed) + spooled || !ok
    ensures ok ==> spooled == old(reader.source.Pending())
    ensures spooled <= old(reader.source.Pending())
    ensures diskOk && Reliable(old(reader.source.rest.script)) ==> ok
  {
    spooled := [];
    var err := NoError;
    ok := true;
    while err == NoError && ok
      invariant spooled + reader.source.Pending() == old(reader.source.Pending()) || !ok
      invariant spooled <= old(reader.source.Pending())
      invariant ok ==> reader.hashed == old(reader.hashed) + spooled
      invariant err == EOF ==> reader.source.Pending() == []
      invariant Reliable(old(reader.source.rest.script)) ==> Reliable(reader.source.rest.script) && err != Failure
      invariant diskOk ==> ok
      decreases err == NoError, ok, reader.source.Effort()
    {
      var chunk;
      ghost var before := spooled + reader.source.Pending();
      chunk, err := reader.Read(COPY_BUFFER_SIZE);
      assert before == (spooled + chunk) + reader.source.Pending();
      if |chunk| > 0 {
        var written := true;
        if !diskOk { written := *; }
        if written {
          spooled := spooled + chunk;
        } else {
          ok := false;
        }
      }
    }
    ok := ok && err == EOF;
  }
}

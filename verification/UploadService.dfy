/** service.Upload, with the rest of the deployment at work between its storage calls. */
module UploadService {
  import opened Metadata
  import opened FilesTable
  import opened ObjectKeys
  import opened Lifecycle
  import opened SharedStorage
  import Streaming
  import Validation

  datatype Input = Input(originalName: string, sizeBytes: int, uploaderIpHash: string)

  datatype Result =
    | Rejected                                         // size, extension or content type
    | ReadFailed                                       // request body or spool file
    | SizeMismatch
    | LookupFailed
    | Duplicate(record: FileRecord)
    | PutFailed
    | InsertFailed
    | Created(record: FileRecord, deleteToken: string)

  class Service {
    const cluster: Cluster
    const validator: Validation.Validator
    const publicBaseUrl: string
    const detect: Bytes -> string        // http.DetectContentType without its parameters
    const hashToken: string -> string
    const calendar: Time -> Date

    constructor (cluster: Cluster, validator: Validation.Validator, publicBaseUrl: string,
                 detect: Bytes -> string, hashToken: string -> string, calendar: Time -> Date)
      ensures this.cluster == cluster && this.validator == validator
      // without the slashes at its end
      ensures this.publicBaseUrl <= publicBaseUrl
      ensures forall i | |this.publicBaseUrl| <= i < |publicBaseUrl| :: publicBaseUrl[i] == '/'
      ensures this.publicBaseUrl != "" ==> this.publicBaseUrl[|this.publicBaseUrl| - 1] != '/'
      ensures this.detect == detect && this.hashToken == hashToken && this.calendar == calendar
    {
      this.cluster, this.validator := cluster, validator;
      this.publicBaseUrl := Validation.TrimRight(c => c == '/', publicBaseUrl);
      this.detect, this.hashToken, this.calendar := detect, hashToken, calendar;
      new;
      Validation.TrimRightShape(c => c == '/', publicBaseUrl);
      ghost var right := Validation.TrimRightTakes(c => c == '/', publicBaseUrl);
    }

    // Size and name are each checked against the rules of the moment.
    ghost predicate PassesRules(input: Input, atSize: Validation.Rules, atName: Validation.Rules) {
      0 < input.sizeBytes <= atSize.maxSizeBytes && Validation.Accepts(validator.lower, atName, input.originalName)
    }

    ghost predicate AllowsType(atType: Validation.Rules, contentType: string) {
      exists p :: p in atType.allowedMimeTypes.Items() && Validation.MatchesMimePattern(p, contentType)
    }

    function RulesAfter(rules: Validation.Rules, update: Option<Validation.Rules>): Validation.Rules {
      match update
      case None => rules
      case Some(installed) =>
        Validation.Rules(installed.maxSizeBytes,
                         Validation.Copied(installed.allowedMimeTypes), Validation.Copied(installed.blockedExtensions))
    }

    // The synchronizer or the admin handler may have changed the rules meanwhile.
    method Meanwhile(update: Option<Validation.Rules>)
      modifies validator
      ensures validator.rules == RulesAfter(old(validator.rules), update)
    {
      match update
      case None =>
      case Some(installed) =>
        validator.Update(installed.maxSizeBytes, installed.allowedMimeTypes, installed.blockedExtensions);
    }

    // The steps an upload with this result has taken on the shared storage.
    ghost predicate Follows(me: nat, content: Bytes, r: Result, steps: seq<Event>) {
      var missed := [UploadHash(me, content), UploadLookup(me, None)];
      match r
      // refused or unreadable: nothing is stored or even looked up
      case Rejected => steps == []
      case ReadFailed => steps == []
      case SizeMismatch => steps == []
      // a lookup that fails or finds a duplicate is the last storage call
      case LookupFailed => steps == [UploadHash(me, content), Stop(me)]
      case Duplicate(rec) => steps == [UploadHash(me, content), UploadLookup(me, Some(rec))]
      // otherwise a put, then an insert, then, if the insert reported an error, a delete
      case PutFailed =>
        |steps| == 3 && steps[..2] == missed && steps[2].UploadPut? && steps[2].put != Succeeded
      case InsertFailed =>
        && |steps| == 5 && steps[..2] == missed
        && steps[2].UploadPut? && steps[2].put == Succeeded
        && steps[3].UploadInsert? && steps[3].insert != Succeeded
        && steps[4].UploadCompensate?
      case Created(rec, _) => steps == missed + [UploadPut(me, rec, Succeeded), UploadInsert(me, Succeeded)]
    }

    // The same for what comes after a lookup that found nothing.
    ghost predicate Persisted(me: nat, record: FileRecord, token: string, r: Result, steps: seq<Event>) {
      match r
      case PutFailed => |steps| == 1 && steps[0].UploadPut? && steps[0].put != Succeeded
      case InsertFailed =>
        && |steps| == 3 && steps[0].UploadPut? && steps[0].put == Succeeded
        && steps[1].UploadInsert? && steps[1].insert != Succeeded && steps[2].UploadCompensate?
      case Created(rec, given) =>
        rec == record && given == token && steps == [UploadPut(me, record, Succeeded), UploadInsert(me, Succeeded)]
      case _ => false
    }

    lemma PersistedFollows(me: nat, content: Bytes, record: FileRecord, token: string, r: Result, steps: seq<Event>)
      requires Persisted(me, record, token, r, steps)
      ensures Follows(me, content, r, [UploadHash(me, content), UploadLookup(me, None)] + steps)
    {
      var missed := [UploadHash(me, content), UploadLookup(me, None)];
      assert (missed + steps)[..2] == missed;
    }

    // The rules are read three times; `update1` and `update2` are what happens to them in between.
    // `me` names the request; `id` and `token` are what the generators will return; `readAt` is the
    // time the request read, `at` the moment of its lookup, as a position in the run.
    method Upload(me: nat, input: Input, source: Streaming.Source, id: string, token: string, diskOk: bool,
                  update1: Option<Validation.Rules>, update2: Option<Validation.Rules>)
      returns (r: Result, ghost steps: seq<Event>, ghost readAt: Time, ghost at: nat)
      requires cluster.Valid() && me !in cluster.state.ops
      requires cluster.Reserved(id) && '.' !in id
      modifies cluster, source, validator
      ensures cluster.Valid() && me !in cluster.state.ops
      ensures Took(old(cluster.run), cluster.run, me, steps) && Follows(me, old(source.data), r, steps)
      ensures var atSize := old(validator.rules);
        var atName := RulesAfter(atSize, update1);
        var atType := RulesAfter(atName, update2);
        var content := old(source.data);
        var contentType := detect(if |content| <= 512 then content else content[..512]);
        && (!PassesRules(input, atSize, atName) ==> r.Rejected? && source.data == old(source.data))
        && (r.Rejected? ==> !PassesRules(input, atSize, atName) || !AllowsType(atType, contentType))
        && (!AllowsType(atType, contentType) ==> r.Rejected? || r.ReadFailed?)
        && (!r.Rejected? && !r.ReadFailed? ==>
            && PassesRules(input, atSize, atName) && AllowsType(atType, contentType)
            && (r.SizeMismatch? <==> |content| != input.sizeBytes))
      ensures diskOk && (forall i | 0 <= i < |old(source.script)| :: old(source.script)[i].Chunk?) ==> !r.ReadFailed?
      ensures cluster.reliable ==> !r.LookupFailed? && !r.PutFailed? && !r.InsertFailed?
      // the lookup, and what it found at its moment
      ensures old(cluster.state.now) <= readAt <= cluster.state.now
      ensures |old(cluster.run)| <= at <= |cluster.run| && Legal(cluster.cfg, Init(cluster.start), cluster.run[..at])
      ensures r.Duplicate? ==>
        var files := After(cluster.cfg, Init(cluster.start), cluster.run[..at]).files;
        var checksum := cluster.cfg.hash(old(source.data));
        && r.record.id in files && files[r.record.id] == r.record
        && r.record.checksum == checksum && r.record.expiresAt > readAt
        && forall x | x in files && files[x].checksum == checksum && files[x].expiresAt > readAt ::
          files[x].createdAt <= r.record.createdAt
      ensures r.PutFailed? || r.InsertFailed? || r.Created? ==>
        var files := After(cluster.cfg, Init(cluster.start), cluster.run[..at]).files;
        forall x | x in files ::
          files[x].checksum != cluster.cfg.hash(old(source.data)) || files[x].expiresAt <= readAt
      // the record of a new file
      ensures r.Created? ==>
        var content := old(source.data);
        && r.deleteToken == token && r.record.deleteTokenHash == hashToken(token)
        && r.record.id == id && r.record.originalName == input.originalName
        && r.record.contentType == detect(if |content| <= 512 then content else content[..512])
        && r.record.sizeBytes == |content| && r.record.checksum == cluster.cfg.hash(content)
        && r.record.objectKey == BuildObjectKey(calendar(readAt), id, input.originalName)
        && r.record.cdnUrl == publicBaseUrl + "/" + r.record.objectKey
        && r.record.uploaderIpHash == input.uploaderIpHash
        && r.record.createdAt == readAt && r.record.expiresAt == readAt + cluster.cfg.ttl
    {
      steps, readAt, at := [], cluster.state.now, |cluster.run|;
      assert cluster.run[..at] == cluster.run;
      var refused, spooled, hashed, contentType := Receive(input, source, diskOk, update1, update2);
      if refused.Some? { return refused.value, steps, readAt, at; }
      r, steps, readAt, at := Store(me, input, spooled, hashed, contentType, id, token);
    }

    // The receiving half: the checks, and the body to the spool file through the hash. None means
    // that all went well.
    method Receive(input: Input, source: Streaming.Source, diskOk: bool,
                   update1: Option<Validation.Rules>, update2: Option<Validation.Rules>)
      returns (refused: Option<Result>, spooled: Bytes, hashed: Bytes, contentType: string)
      modifies source, validator
      ensures refused.Some? ==> refused.value.Rejected? || refused.value.ReadFailed? || refused.value.SizeMismatch?
      ensures refused.None? ==>
        && hashed == spooled == old(source.data) && |spooled| == input.sizeBytes
        && contentType == detect(if |spooled| <= 512 then spooled else spooled[..512])
      ensures var atSize := old(validator.rules);
        var atName := RulesAfter(atSize, update1);
        var atType := RulesAfter(atName, update2);
        var content := old(source.data);
        var sniffed := if |content| <= 512 then content else content[..512];
        var passes, allows := PassesRules(input, atSize, atName), AllowsType(atType, detect(sniffed));
        && (!passes ==> refused == Some(Rejected) && source.data == old(source.data))
        && (!allows ==> refused == Some(Rejected) || refused == Some(ReadFailed))
        && (refused == Some(Rejected) ==> !passes || !allows)
        && (refused.None? || refused == Some(SizeMismatch) ==> passes && allows)
      ensures refused == Some(SizeMismatch) ==> |old(source.data)| != input.sizeBytes
      ensures diskOk && (forall i | 0 <= i < |old(source.script)| :: old(source.script)[i].Chunk?) ==>
        refused != Some(ReadFailed)
    {
      spooled, hashed, contentType := [], [], "";
      var ok := validator.ValidateSize(input.sizeBytes);
      if !ok { refused := Some(Rejected); return; }
      Meanwhile(update1);
      ok := validator.ValidateExtension(input.originalName);
      if !ok { refused := Some(Rejected); return; }

      var sniffed;
      sniffed, ok := Streaming.ReadFull(source, Streaming.SNIFF_BUFFER_SIZE);
      if !ok { refused := Some(ReadFailed); return; }
      assert sniffed == if |old(source.data)| <= 512 then old(source.data) else old(source.data)[..512];
      contentType := detect(sniffed);
      Meanwhile(update2);
      ok := validator.IsMimeTypeAllowed(contentType);
      if !ok { refused := Some(Rejected); return; }
      var fullContent := new Streaming.MultiReader(sniffed, source);
      var checksumReader := new Streaming.ChecksummingReader(fullContent);
      spooled, ok := Streaming.Copy(checksumReader, diskOk);
      if !ok { refused := Some(ReadFailed); return; }
      hashed := checksumReader.hashed;
      refused := if |spooled| != input.sizeBytes then Some(SizeMismatch) else None;
    }

    // The storage half: dedup lookup, put, insert, and the clean-up of a failed insert.
    method Store(me: nat, input: Input, spooled: Bytes, hashed: Bytes, contentType: string, id: string, token: string)
      returns (r: Result, ghost steps: seq<Event>, ghost readAt: Time, ghost at: nat)
      requires cluster.Valid() && me !in cluster.state.ops && cluster.Reserved(id) && '.' !in id && hashed == spooled
      modifies cluster
      ensures cluster.Valid() && me !in cluster.state.ops
      ensures Took(old(cluster.run), cluster.run, me, steps) && Follows(me, spooled, r, steps)
      ensures r.LookupFailed? || r.Duplicate? || r.PutFailed? || r.InsertFailed? || r.Created?
      ensures cluster.reliable ==> r.Duplicate? || r.Created?
      ensures old(cluster.state.now) <= readAt <= cluster.state.now
      ensures |old(cluster.run)| <= at <= |cluster.run| && Legal(cluster.cfg, Init(cluster.start), cluster.run[..at])
      ensures r.Duplicate? ==>
        var files := After(cluster.cfg, Init(cluster.start), cluster.run[..at]).files;
        var checksum := cluster.cfg.hash(spooled);
        && r.record.id in files && files[r.record.id] == r.record
        && r.record.checksum == checksum && r.record.expiresAt > readAt
        && forall x | x in files && files[x].checksum == checksum && files[x].expiresAt > readAt ::
          files[x].createdAt <= r.record.createdAt
      ensures r.PutFailed? || r.InsertFailed? || r.Created? ==>
        var files := After(cluster.cfg, Init(cluster.start), cluster.run[..at]).files;
        forall x | x in files :: files[x].checksum != cluster.cfg.hash(spooled) || files[x].expiresAt <= readAt
      ensures r.Created? ==>
        && r.deleteToken == token && r.record.deleteTokenHash == hashToken(token)
        && r.record.id == id && r.record.originalName == input.originalName && r.record.contentType == contentType
        && r.record.sizeBytes == |spooled| && r.record.checksum == cluster.cfg.hash(spooled)
        && r.record.objectKey == BuildObjectKey(calendar(readAt), id, input.originalName)
        && r.record.cdnUrl == publicBaseUrl + "/" + r.record.objectKey
        && r.record.uploaderIpHash == input.uploaderIpHash
        && r.record.createdAt == readAt && r.record.expiresAt == readAt + cluster.cfg.ttl
    {
      var checksum := cluster.cfg.hash(hashed);
      var now := cluster.StartUpload(me, spooled, id);
      ghost var run1 := cluster.run;
      var existing, ok := cluster.FindActiveByChecksum(me, checksum, now, id);
      readAt, at := now, |cluster.run|;
      ghost var looked := cluster.run;
      assert cluster.run[..at] == looked;
      ghost var second := if ok then UploadLookup(me, existing) else Stop(me);
      TookThen(old(cluster.run), run1, looked, me, [UploadHash(me, spooled)], [second]);
      assert [UploadHash(me, spooled)] + [second] == [UploadHash(me, spooled), second];
      if !ok { return LookupFailed, [UploadHash(me, spooled), Stop(me)], readAt, at; }
      if existing.Some? {
        return Duplicate(existing.value), [UploadHash(me, spooled), UploadLookup(me, existing)], readAt, at;
      }

      var objectKey := BuildObjectKey(calendar(now), id, input.originalName);
      KeyIdOfBuilt(calendar(now), id, input.originalName);
      var record := FileRecord(id, input.originalName, contentType, |spooled|, checksum, objectKey,
                               publicBaseUrl + "/" + objectKey, input.uploaderIpHash, hashToken(token),
                               now, now + cluster.cfg.ttl);
      r, steps := Persist(me, record, token);
      assert cluster.run[..at] == looked;
      PersistedFollows(me, spooled, record, token, r, steps);
      TookThen(old(cluster.run), looked, cluster.run, me, [UploadHash(me, spooled), UploadLookup(me, None)], steps);
      steps := [UploadHash(me, spooled), UploadLookup(me, None)] + steps;
    }

    // Put, insert, and the clean-up when the insert reports an error.
    method Persist(me: nat, record: FileRecord, token: string) returns (r: Result, ghost steps: seq<Event>)
      requires cluster.Valid() && me in cluster.state.ops && cluster.state.ops[me].Missed?
      requires cluster.Reserved(record.id) && WellKeyed(record)
      requires record.sizeBytes == |cluster.state.ops[me].body|
      requires record.checksum == cluster.cfg.hash(cluster.state.ops[me].body)
      requires record.createdAt == cluster.state.ops[me].at && record.expiresAt == record.createdAt + cluster.cfg.ttl
      modifies cluster
      ensures cluster.Valid() && me !in cluster.state.ops && old(cluster.state.now) <= cluster.state.now
      ensures Took(old(cluster.run), cluster.run, me, steps)
      ensures Persisted(me, record, token, r, steps) && (cluster.reliable ==> r.Created?)
    {
      ghost var put, insert, delete;
      var ok;
      ok, put := cluster.PutObject(me, record);
      steps := [UploadPut(me, record, put)];
      if !ok { return PutFailed, steps; }
      ghost var run1 := cluster.run;
      ok, insert := cluster.Insert(me);
      TookThen(old(cluster.run), run1, cluster.run, me, steps, [UploadInsert(me, insert)]);
      steps := steps + [UploadInsert(me, insert)];
      if !ok {
        ghost var run2 := cluster.run;
        delete := cluster.RemoveAgain(me);
        TookThen(old(cluster.run), run2, cluster.run, me, steps, [UploadCompensate(me, delete)]);
        return InsertFailed, steps + [UploadCompensate(me, delete)];
      }
      return Created(record, token), steps;
    }
  }
}

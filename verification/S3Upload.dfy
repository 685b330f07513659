/**
 Upload to an S3-compatible server over a network on which a call may take effect and still be
 reported as failed. Every call is tried up to five times.
 */
module S3Upload {
  import opened Wrappers

  newtype byte = b: int | 0 <= b < 256

  type Data = seq<byte>

  /** A part as the client lists it. The ETag stands for the content: the hash is injective. */
  datatype Part = Part(number: nat, etag: Data)

  /** A multipart upload the server holds open: its key, and the parts received so far. */
  datatype Upload = Upload(key: string, received: map<nat, Data>)

  const ATTEMPTS := 5

  function WithPart(upload: Upload, number: nat, body: Data): Upload {
    upload.(received := upload.received[number := body])
  }

  function Concat(parts: seq<Part>): Data {
    if parts == [] then [] else Concat(parts[..|parts| - 1]) + parts[|parts| - 1].etag
  }

  /**
   The server accepts a completion that lists, in ascending order, parts it received with these ETags - at least
   one.
   */
  predicate Completable(upload: Upload, key: string, parts: seq<Part>) {
    && upload.key == key && parts != []
    && (forall i :: 0 <= i < |parts| ==>
          parts[i].number in upload.received && upload.received[parts[i].number] == parts[i].etag)
    && (forall i, j :: 0 <= i < j < |parts| ==> parts[i].number < parts[j].number)
  }

  // ---- What the server makes of the parts listed ----

  function NumbersOf(parts: seq<Part>): set<nat> {
    set i | 0 <= i < |parts| :: parts[i].number
  }

  /** What it received under these numbers, as far as they are below `n`, by number. */
  function Assembled(upload: Upload, numbers: set<nat>, n: nat): Data {
    if n == 0 then []
    else
      Assembled(upload, numbers, n - 1)
      + if n - 1 in numbers && n - 1 in upload.received then upload.received[n - 1] else []
  }

  function AfterLast(parts: seq<Part>): nat {
    if parts == [] then 0 else parts[|parts| - 1].number + 1
  }

  lemma {:induction false} NothingBetween(upload: Upload, numbers: set<nat>, from: nat, n: nat)
    requires from <= n && forall k :: from <= k < n ==> k !in numbers
    ensures Assembled(upload, numbers, n) == Assembled(upload, numbers, from)
    decreases n
  {
    if from < n {
      NothingBetween(upload, numbers, from, n - 1);
    }
  }

  lemma {:induction false} SameBelow(upload: Upload, xs: set<nat>, ys: set<nat>, n: nat)
    requires forall k :: 0 <= k < n ==> (k in xs <==> k in ys)
    ensures Assembled(upload, xs, n) == Assembled(upload, ys, n)
  {
    if n > 0 {
      SameBelow(upload, xs, ys, n - 1);
    }
  }

  /** Of parts it accepts, the server makes what the client listed. */
  lemma {:induction false} AssembledIsListed(upload: Upload, key: string, parts: seq<Part>)
    requires parts == [] || Completable(upload, key, parts)
    ensures Assembled(upload, NumbersOf(parts), AfterLast(parts)) == Concat(parts)
  {
    if parts != [] {
      var rest, last := parts[..|parts| - 1], parts[|parts| - 1];
      AssembledIsListed(upload, key, rest);
      forall k | 0 <= k < last.number ensures k in NumbersOf(parts) <==> k in NumbersOf(rest) {
        OneMoreNumber(parts, k);
      }
      forall k | AfterLast(rest) <= k < last.number ensures k !in NumbersOf(rest) {
        NumbersBelow(upload, key, rest, k);
      }
      NothingBetween(upload, NumbersOf(rest), AfterLast(rest), last.number);
      SameBelow(upload, NumbersOf(parts), NumbersOf(rest), last.number);
      assert last.number in NumbersOf(parts);
    }
  }

  lemma OneMoreNumber(parts: seq<Part>, k: nat)
    requires parts != []
    ensures k in NumbersOf(parts) <==> k in NumbersOf(parts[..|parts| - 1]) || k == parts[|parts| - 1].number
  {
    var rest := parts[..|parts| - 1];
    if i :| 0 <= i < |parts| && parts[i].number == k {
      assert i < |rest| ==> rest[i].number == k;
    }
    if i :| 0 <= i < |rest| && rest[i].number == k {
      assert parts[i].number == k;
    }
    assert parts[|parts| - 1].number in NumbersOf(parts);
  }

  lemma NumbersBelow(upload: Upload, key: string, parts: seq<Part>, k: nat)
    requires parts == [] || Completable(upload, key, parts)
    ensures k in NumbersOf(parts) ==> k < AfterLast(parts)
  {
  }

  /** The bytes `fh.read(size)` returns at `pos`: all that are left for a negative size. */
  function ReadChunk(data: Data, pos: nat, size: int): (chunk: Data)
    requires pos <= |data|
    ensures chunk <= data[pos..]
  {
    if size < 0 || pos + size > |data| then data[pos..] else data[pos..pos + size]
  }

  /** Numbered from 1, in a row; all but the last of full size, the last not empty; together the data. */
  ghost predicate IsSplit(parts: seq<Part>, data: Data, chunk: int) {
    && (forall i :: 0 <= i < |parts| ==> parts[i].number == i + 1)
    && (forall i :: 0 <= i < |parts| - 1 ==> |parts[i].etag| == chunk)
    && (parts != [] ==> 0 < |parts[|parts| - 1].etag| <= chunk)
    && Concat(parts) == data
  }

  /** So there are ceil(size / chunk) parts. */
  lemma SplitCount(parts: seq<Part>, data: Data, chunk: int)
    requires chunk > 0 && IsSplit(parts, data, chunk)
    ensures |parts| == (|data| + chunk - 1) / chunk
  {
    if parts != [] {
      var last := |parts| - 1;
      FullParts(parts[..last], chunk);
      assert |data| == last * chunk + |parts[last].etag|;
      CeilDiv(last, |parts[last].etag|, chunk);
    }
  }

  lemma {:induction false} FullParts(parts: seq<Part>, chunk: int)
    requires forall i :: 0 <= i < |parts| ==> |parts[i].etag| == chunk
    ensures |Concat(parts)| == |parts| * chunk
  {
    if parts != [] {
      var rest := parts[..|parts| - 1];
      FullParts(rest, chunk);
      OneMoreTimes(|rest|, chunk);
    }
  }

  lemma OneMoreTimes(n: nat, chunk: int)
    ensures (n + 1) * chunk == n * chunk + chunk
  {
  }

  lemma CeilDiv(n: nat, rest: nat, chunk: int)
    requires 0 < rest <= chunk
    ensures (n * chunk + rest + chunk - 1) / chunk == n + 1
  {
    var total := n * chunk + rest + chunk - 1;
    QuotientIs(total, chunk, n + 1);
  }

  lemma QuotientIs(total: int, d: int, q: int)
    requires d > 0 && d * q <= total < d * q + d
    ensures total / d == q
  {
    var x, r := total / d, total % d;
    assert total == d * x + r;
    if x < q {
      Times(d, x + 1, q);
    } else if q < x {
      Times(d, q + 1, x);
    }
  }

  lemma Times(d: int, a: int, b: int)
    requires d > 0 && a <= b
    ensures d * a <= d * b
  {
  }

  /** The server holds every listed part. */
  ghost predicate AllReceived(upload: Upload, parts: seq<Part>) {
    forall i :: 0 <= i < |parts| ==>
      parts[i].number in upload.received && upload.received[parts[i].number] == parts[i].etag
  }

  /** The first `pos` bytes have been read and uploaded as `parts`. */
  ghost predicate Splitting(parts: seq<Part>, data: Data, pos: nat, chunk: int) {
    && pos <= |data| && Concat(parts) == data[..pos]
    && (forall i :: 0 <= i < |parts| ==> parts[i].number == i + 1)
    && (chunk == 0 ==> parts == [])
    && (chunk > 0 ==>
      && (forall i :: 0 <= i < |parts| - 1 ==> |parts[i].etag| == chunk)
      && (parts != [] ==>
            0 < |parts[|parts| - 1].etag| <= chunk && (pos < |data| ==> |parts[|parts| - 1].etag| == chunk)))
  }

  lemma OneMorePart(parts: seq<Part>, data: Data, pos: nat, chunk: int)
    requires Splitting(parts, data, pos, chunk) && ReadChunk(data, pos, chunk) != []
    ensures var body := ReadChunk(data, pos, chunk);
      Splitting(parts + [Part(|parts| + 1, body)], data, pos + |body|, chunk)
  {
    var body := ReadChunk(data, pos, chunk);
    var more := parts + [Part(|parts| + 1, body)];
    assert more[..|more| - 1] == parts;
    assert data[..pos + |body|] == data[..pos] + body;
  }

  lemma PartReceived(before: Upload, after: Upload, parts: seq<Part>, body: Data)
    requires AllReceived(before, parts) && forall i :: 0 <= i < |parts| ==> parts[i].number == i + 1
    requires forall n :: n in before.received && n != |parts| + 1 ==>
      n in after.received && after.received[n] == before.received[n]
    requires |parts| + 1 in after.received && after.received[|parts| + 1] == body
    ensures AllReceived(after, parts + [Part(|parts| + 1, body)])
  {
  }

  /** The uploads held open before, but for this one, are held open as they were. */
  ghost predicate OthersStay(before: map<nat, Upload>, after: map<nat, Upload>, id: Option<nat>) {
    forall u :: u in before && Some(u) != id ==> u in after && after[u] == before[u]
  }

  /** The object is now a front of the body; all of it, unless the server may cut it short. */
  ghost predicate Wrote(before: map<string, Data>, after: map<string, Data>, key: string, body: Data, cutsShort: bool) {
    key in after && after == before[key := after[key]] && after[key] <= body && (!cutsShort ==> after[key] == body)
  }

  /** By its length a front of the file is the file or less. */
  lemma SizeTells(stored: Data, data: Data)
    requires stored <= data
    ensures if |stored| == |data| then stored == data else stored < data
  {
  }

  class S3Destination {
    const prefix: string
    const threshold: int
    const chunkSize: int

    /** Whether the server may store less than it was sent and still report success. */
    const cutsShort: bool

    /** The server: the bucket's objects, and the multipart uploads it holds open. */
    var objects: map<string, Data>
    var uploads: map<nat, Upload>

    /** The calls so far that were reported as failed, refused ones included. */
    ghost var failedCalls: nat

    constructor (prefix: string, threshold: int, chunkSize: int, cutsShort: bool, objects: map<string, Data>,
                 uploads: map<nat, Upload>)
      ensures this.prefix == prefix && this.threshold == threshold && this.chunkSize == chunkSize
      ensures this.cutsShort == cutsShort && this.objects == objects && this.uploads == uploads && failedCalls == 0
    {
      this.prefix, this.threshold, this.chunkSize, this.cutsShort := prefix, threshold, chunkSize, cutsShort;
      this.objects, this.uploads := objects, uploads;
      failedCalls := 0;
    }

    function FullKey(key: string): string {
      prefix + key
    }

    /** One more call is reported as failed. */
    ghost method Failed()
      modifies this`failedCalls
      ensures failedCalls == old(failedCalls) + 1
    {
      failedCalls := failedCalls + 1;
    }

    // ---- Single calls ----

    /** What is stored of a body. */
    method Stored(body: Data) returns (stored: Data)
      ensures stored <= body && (!cutsShort ==> stored == body)
    {
      if cutsShort {
        var n :| 0 <= n <= |body|;
        return body[..n];
      }
      return body;
    }

    method CallPutObject(key: string, body: Data) returns (ok: bool)
      modifies this`objects, this`failedCalls
      ensures ok || objects != old(objects) ==> Wrote(old(objects), objects, key, body, cutsShort)
      ensures failedCalls == old(failedCalls) + if ok then 0 else 1
    {
      if * {
        Failed();
        return false;
      }
      var stored := Stored(body);
      objects := objects[key := stored];
      ok := *;
      if !ok {
        Failed();
      }
    }

    method CallCreate(key: string) returns (id: Option<nat>)
      modifies this`uploads, this`failedCalls
      ensures forall u :: u in old(uploads) ==> u in uploads && uploads[u] == old(uploads)[u]
      ensures id.Some? ==> id.value !in old(uploads) && id.value in uploads && uploads[id.value] == Upload(key, map[])
      ensures failedCalls == old(failedCalls) + if id.Some? then 0 else 1
    {
      if * {
        Failed();
        return None;
      }
      var new' := FreshId(uploads.Keys);
      uploads := uploads[new' := Upload(key, map[])];
      if * {
        Failed();
        return None;
      }
      return Some(new');
    }

    method FreshId(taken: set<nat>) returns (id: nat)
      ensures id !in taken
    {
      id := 0;
      var rest := taken;
      while rest != {}
        invariant forall u :: u in taken && u !in rest ==> u < id
        decreases rest
      {
        var u :| u in rest;
        if u >= id {
          id := u + 1;
        }
        rest := rest - {u};
      }
    }

    method CallUploadPart(id: nat, key: string, number: nat, body: Data) returns (etag: Option<Data>)
      modifies this`uploads, this`failedCalls
      ensures uploads.Keys == old(uploads).Keys && forall u :: u in uploads && u != id ==> uploads[u] == old(uploads)[u]
      ensures id in uploads ==>
        uploads[id] == old(uploads)[id] || uploads[id] == WithPart(old(uploads)[id], number, body)
      ensures etag.Some? ==>
        etag.value == body && id in uploads && uploads[id] == WithPart(old(uploads)[id], number, body)
      ensures failedCalls == old(failedCalls) + if etag.Some? then 0 else 1
    {
      if id !in uploads || uploads[id].key != key {
        Failed();
        return None;
      }
      if * {
        Failed();
        return None;
      }
      uploads := uploads[id := WithPart(uploads[id], number, body)];
      if * {
        Failed();
        return None;
      }
      return Some(body);
    }

    method CallComplete(id: nat, key: string, parts: seq<Part>) returns (ok: bool)
      modifies this`objects, this`uploads, this`failedCalls
      ensures id !in uploads && id in old(uploads) ==> Completable(old(uploads)[id], key, parts)
      ensures ok || objects != old(objects) ==> id in old(uploads) && id !in uploads
      ensures ok || objects != old(objects) ==> Wrote(old(objects), objects, key, Concat(parts), cutsShort)
      ensures uploads == old(uploads) || uploads == old(uploads) - {id}
      ensures failedCalls == old(failedCalls) + if ok then 0 else 1
    {
      if id !in uploads || !Completable(uploads[id], key, parts) {
        Failed();
        return false;
      }
      if * {
        Failed();
        return false;
      }
      AssembledIsListed(uploads[id], key, parts);
      var stored := Stored(Assembled(uploads[id], NumbersOf(parts), AfterLast(parts)));
      objects := objects[uploads[id].key := stored];
      uploads := uploads - {id};
      ok := *;
      if !ok {
        Failed();
      }
    }

    method CallAbort(id: nat) returns (ok: bool)
      modifies this`uploads, this`failedCalls
      ensures uploads == old(uploads) || uploads == old(uploads) - {id}
      ensures ok ==> id !in uploads
      ensures failedCalls == old(failedCalls) + if ok then 0 else 1
    {
      if * {
        Failed();
        return false;
      }
      uploads := uploads - {id};
      ok := *;
      if !ok {
        Failed();
      }
    }

    method CallHead(key: string) returns (size: Option<nat>)
      modifies this`failedCalls
      ensures size.Some? ==> key in objects && size.value == |objects[key]|
      ensures failedCalls == old(failedCalls) + if size.Some? then 0 else 1
    {
      if key !in objects {
        Failed();
        return None;
      }
      if * {
        Failed();
        return None;
      }
      return Some(|objects[key]|);
    }

    // ---- Calls with retry: given up after five failures ----

    method PutObject(key: string, body: Data) returns (ok: bool)
      modifies this`objects, this`failedCalls
      ensures ok || objects != old(objects) ==> Wrote(old(objects), objects, key, body, cutsShort)
      ensures if ok then old(failedCalls) <= failedCalls < old(failedCalls) + 5
              else failedCalls == old(failedCalls) + 5
    {
      ok := false;
      for attempt := 0 to ATTEMPTS
        invariant objects != old(objects) ==> Wrote(old(objects), objects, key, body, cutsShort)
        invariant failedCalls == old(failedCalls) + attempt && !ok
      {
        ok := CallPutObject(key, body);
        if ok {
          return;
        }
      }
    }

    method Create(key: string) returns (id: Option<nat>)
      modifies this`uploads, this`failedCalls
      ensures OthersStay(old(uploads), uploads, None)
      ensures id.Some? ==> id.value !in old(uploads) && id.value in uploads && uploads[id.value] == Upload(key, map[])
      ensures if id.Some? then old(failedCalls) <= failedCalls < old(failedCalls) + 5
              else failedCalls == old(failedCalls) + 5
    {
      for attempt := 0 to ATTEMPTS
        invariant failedCalls == old(failedCalls) + attempt && OthersStay(old(uploads), uploads, None)
      {
        id := CallCreate(key);
        if id.Some? {
          return;
        }
      }
      id := None;
    }

    method UploadPart(id: nat, key: string, number: nat, body: Data) returns (etag: Option<Data>)
      requires id in uploads && uploads[id].key == key
      modifies this`uploads, this`failedCalls
      ensures id in uploads && uploads[id].key == key && OthersStay(old(uploads), uploads, Some(id))
      ensures forall n :: n in old(uploads)[id].received && n != number ==>
        n in uploads[id].received && uploads[id].received[n] == old(uploads)[id].received[n]
      ensures etag.Some? ==>
        etag.value == body && number in uploads[id].received && uploads[id].received[number] == body
      ensures if etag.Some? then old(failedCalls) <= failedCalls < old(failedCalls) + 5
              else failedCalls == old(failedCalls) + 5
    {
      for attempt := 0 to ATTEMPTS
        invariant id in uploads && uploads[id].key == key && failedCalls == old(failedCalls) + attempt
        invariant OthersStay(old(uploads), uploads, Some(id))
        invariant forall n :: n in old(uploads)[id].received && n != number ==>
          n in uploads[id].received && uploads[id].received[n] == old(uploads)[id].received[n]
      {
        etag := CallUploadPart(id, key, number, body);
        if etag.Some? {
          return;
        }
      }
      etag := None;
    }

    /** A retry after a completion that did take effect finds the upload gone, and fails. */
    method Complete(id: nat, key: string, parts: seq<Part>) returns (ok: bool)
      modifies this`objects, this`uploads, this`failedCalls
      ensures ok || objects != old(objects) ==>
        parts != [] && Wrote(old(objects), objects, key, Concat(parts), cutsShort)
      ensures ok || objects != old(objects) ==> id !in uploads
      ensures OthersStay(old(uploads), uploads, Some(id))
      ensures if ok then old(failedCalls) <= failedCalls < old(failedCalls) + 5
              else failedCalls == old(failedCalls) + 5
    {
      ok := false;
      for attempt := 0 to ATTEMPTS
        invariant objects != old(objects) ==>
          id !in uploads && parts != [] && Wrote(old(objects), objects, key, Concat(parts), cutsShort)
        invariant failedCalls == old(failedCalls) + attempt && !ok && OthersStay(old(uploads), uploads, Some(id))
      {
        ok := CallComplete(id, key, parts);
        if ok {
          return;
        }
      }
    }

    /** `_verify_size`: the object's size is the local file's. */
    method VerifySize(key: string, size: nat) returns (ok: bool)
      modifies this`failedCalls
      ensures ok ==> key in objects && |objects[key]| == size
      ensures !ok ==> failedCalls == old(failedCalls) + 5 || (key in objects && |objects[key]| != size)
      ensures old(failedCalls) <= failedCalls <= old(failedCalls) + 5
    {
      for attempt := 0 to ATTEMPTS
        invariant failedCalls == old(failedCalls) + attempt
      {
        var remote := CallHead(key);
        if remote.Some? {
          return remote.value == size;
        }
      }
      return false;
    }

    // ---- Put ----

    /** `_put_single` */
    method PutSingle(data: Data, key: string) returns (ok: bool)
      modifies this`objects, this`failedCalls
      ensures objects != old(objects) ==> Wrote(old(objects), objects, key, data, cutsShort)
      ensures ok ==> objects == old(objects)[key := data]
      ensures !ok ==> failedCalls >= old(failedCalls) + 5 || IsCutShort(key, data)
      ensures old(failedCalls) <= failedCalls <= old(failedCalls) + 9
    {
      ok := PutObject(key, data);
      if ok {
        SizeTells(objects[key], data);
        ok := VerifySize(key, |data|);
      }
    }

    /** The object holds less than the file. */
    predicate IsCutShort(key: string, data: Data)
      reads this`objects
    {
      cutsShort && key in objects && objects[key] < data
    }

    /** One turn of the loop of `_put_multipart`: the chunk becomes the next part. */
    method UploadNext(key: string, id: nat, parts: seq<Part>, chunk: Data) returns (ok: bool, more: seq<Part>)
      requires id in uploads && uploads[id].key == key && AllReceived(uploads[id], parts)
      requires forall i :: 0 <= i < |parts| ==> parts[i].number == i + 1
      modifies this`uploads, this`failedCalls
      ensures id in uploads && uploads[id].key == key && OthersStay(old(uploads), uploads, Some(id))
      ensures ok ==> more == parts + [Part(|parts| + 1, chunk)] && AllReceived(uploads[id], more)
      ensures if ok then old(failedCalls) <= failedCalls < old(failedCalls) + 5
              else failedCalls == old(failedCalls) + 5
    {
      ghost var before := uploads[id];
      var etag := UploadPart(id, key, |parts| + 1, chunk);
      if etag.None? {
        return false, parts;
      }
      PartReceived(before, uploads[id], parts, chunk);
      return true, parts + [Part(|parts| + 1, etag.value)];
    }

    /** The loop of `_put_multipart`: read the file chunk by chunk, upload each as the next part. */
    method UploadParts(data: Data, key: string, id: nat) returns (ok: bool, parts: seq<Part>)
      requires id in uploads && uploads[id] == Upload(key, map[])
      modifies this`uploads, this`failedCalls
      ensures OthersStay(old(uploads), uploads, Some(id))
      ensures ok && chunkSize != 0 ==> Concat(parts) == data
      ensures ok && parts != [] ==> id in uploads && Completable(uploads[id], key, parts)
      ensures ok && chunkSize > 0 ==> IsSplit(parts, data, chunkSize)
      ensures chunkSize == 0 ==> parts == []
      ensures !ok ==> failedCalls >= old(failedCalls) + 5
      ensures old(failedCalls) <= failedCalls <= old(failedCalls) + 4 * |parts| + if ok then 0 else 5
    {
      parts := [];
      var pos: nat := 0;
      while true
        invariant id in uploads && uploads[id].key == key && AllReceived(uploads[id], parts)
        invariant Splitting(parts, data, pos, chunkSize) && OthersStay(old(uploads), uploads, Some(id))
        invariant old(failedCalls) <= failedCalls <= old(failedCalls) + 4 * |parts|
        decreases |data| - pos
      {
        var chunk := ReadChunk(data, pos, chunkSize);
        if chunk == [] {
          break;
        }
        var more;
        ok, more := UploadNext(key, id, parts, chunk);
        if !ok {
          return;
        }
        OneMorePart(parts, data, pos, chunkSize);
        parts := more;
        pos := pos + |chunk|;
      }
      assert chunkSize != 0 ==> data[..pos] == data;
      return true, parts;
    }

    /** `_put_multipart`; the upload it opened is left open only if the call that aborts it failed as well. */
    method PutMultipart(data: Data, key: string) returns (ok: bool, parts: seq<Part>, ghost started: Option<nat>)
      modifies this`objects, this`uploads, this`failedCalls
      ensures objects != old(objects) ==> Wrote(old(objects), objects, key, data, cutsShort)
      ensures ok ==> objects == old(objects)[key := data]
      ensures ok && chunkSize > 0 ==> IsSplit(parts, data, chunkSize)
      ensures !ok ==> failedCalls >= old(failedCalls) + 5 || IsCutShort(key, data)
      ensures old(failedCalls) <= failedCalls <= old(failedCalls) + 4 * |parts| + 14
      ensures OthersStay(old(uploads), uploads, None)
      ensures started.Some? && started.value in uploads ==> !ok && failedCalls >= old(failedCalls) + 6
      ensures started.None? ==> !ok && parts == [] && objects == old(objects)
    {
      var id := Create(key);
      started := id;
      if id.None? {
        return false, [], None;
      }
      ok, parts := UploadParts(data, key, id.value);
      if ok {
        ok := Complete(id.value, key, parts);
      }
      if !ok {
        var _ := CallAbort(id.value);
        return;
      }
      SizeTells(objects[key], data);
      ok := VerifySize(key, |data|);
    }

    /**
     `put`: on return the object is the file, even where the server may cut it short. It fails only after five failed
     calls, or if the object was cut short; then the object is what it was before, or a front of the file.
     */
    method Put(data: Data, key: string) returns (ok: bool, ghost parts: seq<Part>)
      modifies this`objects, this`uploads, this`failedCalls
      ensures ok ==> objects == old(objects)[FullKey(key) := data]
      ensures !ok ==> failedCalls >= old(failedCalls) + 5 || IsCutShort(FullKey(key), data)
      ensures objects != old(objects) ==> Wrote(old(objects), objects, FullKey(key), data, cutsShort)
      ensures if |data| < threshold then uploads == old(uploads) else OthersStay(old(uploads), uploads, None)
      ensures ok && |data| >= threshold && chunkSize > 0 ==> IsSplit(parts, data, chunkSize)
    {
      if |data| < threshold {
        ok := PutSingle(data, FullKey(key));
        parts := [];
      } else {
        ghost var started;
        ok, parts, started := PutMultipart(data, FullKey(key));
      }
    }
  }
}

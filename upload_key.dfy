/** `S3.generateKey`: the object key an upload is stored under
    (service/api-service/src/aws.ts, aws.js and app/api-service/src/utils/aws.js are identical here). */
module UploadKey {
  import opened JsText

  /** The characters `[a-zA-Z0-9.-]` that a file name keeps. */
  predicate AllowedChar(c: char)
  {
    ('a' <= c <= 'z') || ('A' <= c <= 'Z') || ('0' <= c <= '9') || c == '.' || c == '-'
  }

  /** `fileName.replace(/[^a-zA-Z0-9.-]/g, '_')` */
  function Sanitize(fileName: string): (r: string)
    ensures |r| == |fileName|
    ensures forall i :: 0 <= i < |r| ==> AllowedChar(r[i]) || r[i] == '_'
    ensures forall i :: 0 <= i < |r| && AllowedChar(fileName[i]) ==> r[i] == fileName[i]
  {
    seq(|fileName|, i requires 0 <= i < |fileName| => if AllowedChar(fileName[i]) then fileName[i] else '_')
  }

  /** Sanitising a sanitised name changes nothing. */
  lemma SanitizeIdempotent(fileName: string)
    ensures Sanitize(Sanitize(fileName)) == Sanitize(fileName)
  {
  }

  lemma SanitizedHasNoSlash(fileName: string)
    ensures '/' !in Sanitize(fileName)
  {
    var s := Sanitize(fileName);
    assert forall i :: 0 <= i < |s| ==> s[i] != '/';
  }

  /** `input/${uuid}/${timestamp}-${sanitizedFilename}`, `timestamp` being `Date.now()`. */
  function GenerateKey(uuid: string, fileName: string, timestamp: nat): (key: string)
    ensures StartsWith(key, "input/" + uuid + "/")
    ensures |key| == 7 + |uuid| + |Decimal(timestamp)| + 1 + |fileName|
    ensures key[|key| - |fileName|..] == Sanitize(fileName)
  {
    "input/" + uuid + "/" + Decimal(timestamp) + "-" + Sanitize(fileName)
  }

  /** For an id without '/', the key has exactly three '/'-segments: `input`, the id, and
      the timestamped sanitised name. */
  lemma {:induction false} KeySegments(uuid: string, fileName: string, timestamp: nat)
    requires '/' !in uuid
    ensures Split(GenerateKey(uuid, fileName, timestamp), '/') ==
      ["input", uuid, Decimal(timestamp) + "-" + Sanitize(fileName)]
  {
    var last := Decimal(timestamp) + "-" + Sanitize(fileName);
    SanitizedHasNoSlash(fileName);
    assert '/' !in last by {
      assert forall i :: 0 <= i < |Decimal(timestamp)| ==> IsDigit(Decimal(timestamp)[i]);
    }
    assert GenerateKey(uuid, fileName, timestamp) == "input" + ['/'] + (uuid + ['/'] + last);
    SplitAtFirst("input", '/', uuid + ['/'] + last);
    SplitAtFirst(uuid, '/', last);
    SplitWithoutSeparator(last, '/');
  }

  /** Every generated key carries the `input/` prefix. */
  lemma KeyHasInputPrefix(uuid: string, fileName: string, timestamp: nat)
    ensures StartsWith(GenerateKey(uuid, fileName, timestamp), "input/")
  {
    var key := GenerateKey(uuid, fileName, timestamp);
    assert key == "input/" + (uuid + "/" + Decimal(timestamp) + "-" + Sanitize(fileName));
  }
}

/** The fan-in reshape between the segmentation map stage and the DARTEL
    template stage: `get2classes`.

    The segmentation stage is replicated once per structural image and yields,
    per replica, a "session" record of DARTEL-ready tissue images: element 0
    holds the grey-matter (class 1) paths, element 1 the white-matter (class 2)
    paths, and any further elements are ignored. The reshape concatenates the
    grey-matter lists of all sessions, in order, into one list and the
    white-matter lists into another, and returns the two lists as a pair. */
module DartelInputs {

  type Path = string

  /** One replica's output record: a list of fields, each a list of paths. */
  type Session = seq<seq<Path>>

  /** Index of the grey-matter field in a session record. */
  const GreyMatter: nat := 0
  /** Index of the white-matter field in a session record. */
  const WhiteMatter: nat := 1

  /** Every session has a field at index `k`; indexing `session[k]` does not fail. */
  predicate HasField(files: seq<Session>, k: nat)
  {
    forall i :: 0 <= i < |files| ==> k < |files[i]|
  }

  /** The in-order concatenation of field `k` over all sessions. */
  function Flatten(files: seq<Session>, k: nat): seq<Path>
    requires HasField(files, k)
  {
    if files == [] then [] else files[0][k] + Flatten(files[1..], k)
  }

  /** The number of paths field `k` holds, summed over all sessions. */
  function FieldCount(files: seq<Session>, k: nat): nat
    requires HasField(files, k)
  {
    if files == [] then 0 else |files[0][k]| + FieldCount(files[1..], k)
  }

  /** Flattening distributes over concatenation of the session list. */
  lemma {:induction false} FlattenAppend(a: seq<Session>, b: seq<Session>, k: nat)
    requires HasField(a, k) && HasField(b, k)
    ensures HasField(a + b, k)
    ensures Flatten(a + b, k) == Flatten(a, k) + Flatten(b, k)
  {
    if a == [] {
      assert a + b == b;
    } else {
      assert (a + b)[1..] == a[1..] + b;
      FlattenAppend(a[1..], b, k);
    }
  }

  /** The reshape itself: two local lists grown by `extend` in a loop over the
      sessions, returned as a two-element list. */
  method Get2Classes(dartelFiles: seq<Session>) returns (r: seq<seq<Path>>)
    requires HasField(dartelFiles, WhiteMatter)
    ensures |r| == 2
    ensures r[0] == Flatten(dartelFiles, GreyMatter)
    ensures r[1] == Flatten(dartelFiles, WhiteMatter)
    ensures |r[0]| == FieldCount(dartelFiles, GreyMatter)
    ensures |r[1]| == FieldCount(dartelFiles, WhiteMatter)
    ensures dartelFiles == [] ==> r == [[], []]
  {
    var class1images: seq<Path> := [];
    var class2images: seq<Path> := [];
    var i := 0;
    while i < |dartelFiles|
      invariant 0 <= i <= |dartelFiles|
      invariant class1images == Flatten(dartelFiles[..i], GreyMatter)
      invariant class2images == Flatten(dartelFiles[..i], WhiteMatter)
    {
      var session := dartelFiles[i];
      FlattenAppend(dartelFiles[..i], [session], GreyMatter);
      FlattenAppend(dartelFiles[..i], [session], WhiteMatter);
      assert dartelFiles[..i + 1] == dartelFiles[..i] + [session];
      class1images := class1images + session[GreyMatter];
      class2images := class2images + session[WhiteMatter];
      i := i + 1;
    }
    assert dartelFiles[..i] == dartelFiles;
    FlattenCount(dartelFiles, GreyMatter);
    FlattenCount(dartelFiles, WhiteMatter);
    r := [class1images, class2images];
  }

  /** Each output list is exactly as long as the paths its field holds across
      all sessions. */
  lemma {:induction false} FlattenCount(files: seq<Session>, k: nat)
    requires HasField(files, k)
    ensures |Flatten(files, k)| == FieldCount(files, k)
  {
    if files != [] {
      FlattenCount(files[1..], k);
    }
  }

  /** A path appears in the flattened field `k` exactly when some session holds
      it in field `k`. */
  lemma {:induction false} FlattenMembership(files: seq<Session>, k: nat, p: Path)
    requires HasField(files, k)
    ensures p in Flatten(files, k) <==> exists i :: 0 <= i < |files| && p in files[i][k]
  {
    if files != [] {
      FlattenMembership(files[1..], k, p);
      if p in Flatten(files[1..], k) {
        var i :| 0 <= i < |files[1..]| && p in files[1..][i][k];
        assert p in files[i + 1][k];
      }
      if exists i :: 0 <= i < |files| && p in files[i][k] {
        var i :| 0 <= i < |files| && p in files[i][k];
        if i > 0 {
          assert p in files[1..][i - 1][k];
        }
      }
    }
  }

  /** Every session holds exactly one path in field `k`. */
  predicate OnePathEach(files: seq<Session>, k: nat)
    requires HasField(files, k)
  {
    forall i :: 0 <= i < |files| ==> |files[i][k]| == 1
  }

  /** When every session holds a single path in field `k`, the flattened list is
      index-aligned with the session list. */
  lemma {:induction false} FlattenAligned(files: seq<Session>, k: nat)
    requires HasField(files, k) && OnePathEach(files, k)
    ensures |Flatten(files, k)| == |files|
    ensures forall i :: 0 <= i < |files| ==> Flatten(files, k)[i] == files[i][k][0]
  {
    if files != [] {
      FlattenAligned(files[1..], k);
      forall i | 0 <= i < |files|
        ensures Flatten(files, k)[i] == files[i][k][0]
      {
        if i > 0 {
          assert files[1..][i - 1] == files[i];
        }
      }
    }
  }

  /** Two session lists that agree on field `k` of every session flatten to the
      same list on `k`, whatever their other fields hold. */
  lemma {:induction false} FlattenOnlyReadsField(a: seq<Session>, b: seq<Session>, k: nat)
    requires HasField(a, k) && HasField(b, k)
    requires |a| == |b|
    requires forall i :: 0 <= i < |a| ==> a[i][k] == b[i][k]
    ensures Flatten(a, k) == Flatten(b, k)
  {
    if a != [] {
      FlattenOnlyReadsField(a[1..], b[1..], k);
    }
  }

  /** Every session cut to its first two fields. */
  function TruncateAll(files: seq<Session>): (cut: seq<Session>)
    requires HasField(files, WhiteMatter)
    ensures |cut| == |files|
    ensures forall i :: 0 <= i < |cut| ==> |cut[i]| == 2
  {
    seq(|files|, i requires 0 <= i < |files| => files[i][..2])
  }

  /** Fields at index 2 and beyond never affect the reshape: cutting every
      session to its first two fields leaves both output lists unchanged. */
  lemma ExtraFieldsIgnored(files: seq<Session>)
    requires HasField(files, WhiteMatter)
    ensures HasField(TruncateAll(files), WhiteMatter)
    ensures Flatten(TruncateAll(files), GreyMatter) == Flatten(files, GreyMatter)
    ensures Flatten(TruncateAll(files), WhiteMatter) == Flatten(files, WhiteMatter)
  {
    var cut := TruncateAll(files);
    FlattenOnlyReadsField(cut, files, GreyMatter);
    FlattenOnlyReadsField(cut, files, WhiteMatter);
  }
}

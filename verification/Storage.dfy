/** The private model bucket: `R2UploadController` in `src/private_store/storage.py`, and the reaper's plan. */
module Storage {
  import opened Contracts
  import Radix
  import opened Results

  const MAX_MINER_UPLOAD_OBJECTS := 4096

  /** A stored object: its bytes (by name), its size and the time it was last written, when known. */
  datatype Object = Object(content: string, size: nat, modified: Option<int>)

  type Objects = map<string, Object>

  predicate EndsWithSlash(key: string) {
    key != "" && key[|key| - 1] == '/'
  }

  /** A listing under `prefix` contains `key`; keys that end in `/` are folder markers and left out. */
  predicate Lists(prefix: string, key: string) {
    prefix <= key && !EndsWithSlash(key)
  }

  predicate Dated(objects: Objects, prefix: string, key: string) {
    key in objects && Lists(prefix, key) && objects[key].modified.Some?
  }

  ghost predicate IsLatest(objects: Objects, prefix: string, time: int) {
    exists k :: Dated(objects, prefix, k) && objects[k].modified.value == time
  }

  ghost predicate Covered(objects: Objects, newest: map<string, int>, prefix: string, key: string)
    requires Dated(objects, prefix, key)
  {
    prefix in newest && objects[key].modified.value <= newest[prefix]
  }

  /** `newest` maps each attempt prefix that holds dated objects to the latest of their dates. */
  ghost predicate IsInventory(newest: map<string, int>, objects: Objects) {
    && (forall p :: p in newest ==> IsCanonical(p) && IsLatest(objects, p, newest[p]))
    && (forall p, k :: IsCanonical(p) && Dated(objects, p, k) ==> Covered(objects, newest, p, k))
  }

  /** An inventory in terms of keys: those that start with the prefix, do not end with `/` and have a date. */
  lemma InventoryIs(newest: map<string, int>, objects: Objects, prefix: string)
    requires IsInventory(newest, objects)
    ensures prefix in newest ==> exists k :: IsDatedUnder(objects, prefix, k, newest[prefix])
    ensures IsCanonical(prefix) ==>
              forall k, time :: IsDatedUnder(objects, prefix, k, time) ==> prefix in newest && time <= newest[prefix]
  {
    if prefix in newest {
      var k :| Dated(objects, prefix, k) && objects[k].modified.value == newest[prefix];
      assert IsDatedUnder(objects, prefix, k, newest[prefix]);
    }
    forall k, time | IsCanonical(prefix) && IsDatedUnder(objects, prefix, k, time)
      ensures prefix in newest && time <= newest[prefix]
    {
      assert Dated(objects, prefix, k) && Covered(objects, newest, prefix, k);
    }
  }

  predicate IsDatedUnder(objects: Objects, prefix: string, k: string, time: int) {
    k in objects && prefix <= k && (k == "" || k[|k| - 1] != '/') && objects[k].modified == Some(time)
  }

  ghost predicate IsUnder(root: string, prefix: string) {
    IsCanonical(prefix) && root <= prefix
  }

  /** `newest` extends `before` by the inventory of the keys in `done`, as far as they belong to prefixes in `mine`. */
  ghost predicate Inventories(
    newest: map<string, int>, before: map<string, int>, objects: Objects, done: set<string>, mine: string -> bool)
  {
    && (forall p :: p in before ==> p in newest && newest[p] == before[p])
    && (forall p :: p in newest && p !in before ==> mine(p) && IsLatest(objects, p, newest[p]))
    && (forall p, k :: mine(p) && k in done && Dated(objects, p, k) ==> Covered(objects, newest, p, k))
  }

  function Newer(newest: map<string, int>, prefix: Option<string>, modified: Option<int>): map<string, int> {
    if prefix.None? || modified.None? then newest
    else
      var p, time := prefix.value, modified.value;
      newest[p := if p in newest && newest[p] > time then newest[p] else time]
  }

  lemma NextKey(
    newest: map<string, int>, before: map<string, int>, objects: Objects, done: set<string>, mine: string -> bool,
    key: string, prefix: Option<string>)
    requires Inventories(newest, before, objects, done, mine) && key in objects
    requires forall p :: p in before ==> !mine(p)
    requires forall p :: prefix == Some(p) <==> mine(p) && Lists(p, key)
    ensures Inventories(Newer(newest, prefix, objects[key].modified), before, objects, done + {key}, mine)
  {
    if prefix.Some? && objects[key].modified.Some? {
      assert Dated(objects, prefix.value, key);
    }
  }

  lemma WholeInventory(
    first: map<string, int>, newest: map<string, int>, objects: Objects, isFirst: string -> bool,
    isRetry: string -> bool)
    requires Inventories(first, map[], objects, objects.Keys, isFirst)
    requires Inventories(newest, first, objects, objects.Keys, isRetry)
    requires forall p :: IsCanonical(p) <==> isFirst(p) || isRetry(p)
    ensures IsInventory(newest, objects)
  {
  }

  /** What is left once every listed object under `prefix` is deleted. */
  function Without(objects: Objects, prefix: string): Objects {
    map k | k in objects && !Lists(prefix, k) :: objects[k]
  }

  /** Deleted is what starts with the prefix and does not end with `/`; the rest is as it was. */
  lemma WithoutIs(objects: Objects, prefix: string, key: string)
    ensures key in Without(objects, prefix) <==>
            key in objects && !(prefix <= key && (key == "" || key[|key| - 1] != '/'))
    ensures key in Without(objects, prefix) ==> Without(objects, prefix)[key] == objects[key]
  {
  }

  /** `plan_reap`. */
  function PlanReap(retained: map<string, int>, cutoff: int, protected: set<string>): set<string> {
    set p | p in retained && retained[p] < cutoff && p !in protected
  }

  /** A prefix is reaped exactly if its latest upload is older than the cutoff and nothing protects it. */
  lemma PlanIs(retained: map<string, int>, cutoff: int, protected: set<string>, prefix: string)
    ensures prefix in PlanReap(retained, cutoff, protected) <==>
            prefix !in protected && prefix in retained && cutoff - retained[prefix] > 0
  {
  }

  // ---------------------------------------------------------------- which prefix a key belongs to

  /** The position of the first `/`, or the length. */
  function Slash(s: string): (i: nat)
    ensures i <= |s| && '/' !in s[..i] && (i < |s| ==> s[i] == '/')
  {
    if s == "" || s[0] == '/' then 0
    else
      var i := 1 + Slash(s[1..]);
      assert s[..i] == [s[0]] + s[1..][..i - 1];
      i
  }

  function Head(s: string): string { s[..Slash(s)] }

  function Tail(s: string): string { if Slash(s) < |s| then s[Slash(s) + 1..] else "" }

  /** The prefix text `retained_uploads` cuts from a key, if the key has the parts for one. */
  function CutPrefix(root: string, key: string): Option<string>
    requires root <= key
  {
    var nested := root == RETRY_ROOT;
    var relative := key[|root|..];
    var rest := Tail(relative);
    if rest == "" || (nested && Tail(rest) == "") then None
    else Some(root + Head(relative) + "/" + (if nested then Head(rest) + "/" else ""))
  }

  /** The canonical prefix `retained_uploads` files a key under, if any. */
  function PrefixOfKey(root: string, key: string): Option<string>
    requires root <= key
  {
    var cut := CutPrefix(root, key);
    if cut.Some? && IsCanonical(cut.value) then cut else None
  }

  lemma {:induction false} HeadAndTail(head: string, tail: string)
    requires '/' !in head
    ensures Head(head + "/" + tail) == head && Tail(head + "/" + tail) == tail
  {
    if head != "" {
      HeadAndTail(head[1..], tail);
      assert (head + "/" + tail)[1..] == head[1..] + "/" + tail;
    }
  }

  lemma SplitAtSlash(s: string)
    requires Tail(s) != ""
    ensures s == Head(s) + "/" + Tail(s)
  {
  }

  /** A listed key is filed under a prefix exactly when that prefix is canonical and starts the key. */
  lemma OwnerOfKey(root: string, key: string, prefix: string)
    requires root in {FIRST_ROOT, RETRY_ROOT} && root <= key && !EndsWithSlash(key)
    ensures PrefixOfKey(root, key) == Some(prefix) <==> IsCanonical(prefix) && root <= prefix && prefix <= key
  {
    if PrefixOfKey(root, key) == Some(prefix) { CutIsPrefix(root, key); }
    if IsCanonical(prefix) && root <= prefix && prefix <= key { OwnedKeyIsFiled(root, key, prefix); }
  }

  lemma CutIsPrefix(root: string, key: string)
    requires root <= key && CutPrefix(root, key).Some?
    ensures root <= CutPrefix(root, key).value <= key
  {
    var relative := key[|root|..];
    var head, rest := Head(relative), Tail(relative);
    SplitAtSlash(relative);
    var first := root + head + "/";
    assert key == first + rest;
    if root == RETRY_ROOT {
      SplitAtSlash(rest);
      Reassociate(first, Head(rest), Tail(rest));
    } else {
      assert first + "" == first;
    }
  }

  lemma Reassociate(p: string, head: string, tail: string)
    ensures p + (head + "/" + tail) == (p + (head + "/")) + tail
  {
  }

  lemma CutFirst(rid: string, rest: string)
    requires '/' !in rid && rest != ""
    ensures FIRST_ROOT <= FIRST_ROOT + rid + "/" + rest
    ensures CutPrefix(FIRST_ROOT, FIRST_ROOT + rid + "/" + rest) == Some(FIRST_ROOT + rid + "/")
  {
    var key := FIRST_ROOT + rid + "/" + rest;
    assert key == FIRST_ROOT + (rid + "/" + rest);
    HeadAndTail(rid, rest);
    assert FIRST_ROOT + rid + "/" + "" == FIRST_ROOT + rid + "/";
  }

  lemma CutRetry(rid: string, attempt: string, rest: string)
    requires '/' !in rid && '/' !in attempt && rest != ""
    ensures RETRY_ROOT <= RETRY_ROOT + rid + "/" + attempt + "/" + rest
    ensures CutPrefix(RETRY_ROOT, RETRY_ROOT + rid + "/" + attempt + "/" + rest)
         == Some(RETRY_ROOT + rid + "/" + (attempt + "/"))
  {
    var key := RETRY_ROOT + rid + "/" + attempt + "/" + rest;
    assert key == RETRY_ROOT + (rid + "/" + (attempt + "/" + rest));
    HeadAndTail(rid, attempt + "/" + rest);
    HeadAndTail(attempt, rest);
  }

  lemma OwnedKeyIsFiled(root: string, key: string, prefix: string)
    requires root in {FIRST_ROOT, RETRY_ROOT} && root <= key && !EndsWithSlash(key)
    requires IsCanonical(prefix) && root <= prefix && prefix <= key
    ensures PrefixOfKey(root, key) == Some(prefix)
  {
    var rest := key[|prefix|..];
    assert key == prefix + rest;
    assert rest != "" by { CanonicalRoot(prefix); }
    var parts := ParseModelPrefix(prefix).value;
    ParseInvertsPrefix(prefix, parts);
    RootsDiffer(prefix);
    PrefixRoot(parts);
    if root == FIRST_ROOT { OwnedByFirst(prefix, parts, rest); } else { OwnedByRetry(prefix, parts, rest); }
  }

  lemma OwnedByFirst(prefix: string, parts: Upload, rest: string)
    requires ModelPrefix(parts.registrationId, parts.attempt) == Ok(prefix) && parts.attempt == 1 && rest != ""
    ensures FIRST_ROOT <= prefix + rest && CutPrefix(FIRST_ROOT, prefix + rest) == Some(prefix)
  {
    CutFirst(parts.registrationId, rest);
  }

  lemma OwnedByRetry(prefix: string, parts: Upload, rest: string)
    requires ModelPrefix(parts.registrationId, parts.attempt) == Ok(prefix) && parts.attempt > 1 && rest != ""
    ensures RETRY_ROOT <= prefix + rest && CutPrefix(RETRY_ROOT, prefix + rest) == Some(prefix)
  {
    var rid, attempt := parts.registrationId, "a" + Radix.Decimal(parts.attempt);
    assert prefix == RETRY_ROOT + rid + "/" + (attempt + "/");
    assert prefix + rest == RETRY_ROOT + rid + "/" + attempt + "/" + rest;
    CutRetry(rid, attempt, rest);
  }

  lemma PrefixRoot(upload: Upload)
    requires ModelPrefix(upload.registrationId, upload.attempt).Ok?
    ensures var p := ModelPrefix(upload.registrationId, upload.attempt).value;
            (upload.attempt == 1 ==> FIRST_ROOT <= p) && (upload.attempt > 1 ==> RETRY_ROOT <= p)
  {
  }

  lemma CanonicalRoot(prefix: string)
    requires IsCanonical(prefix)
    ensures IsUnder(FIRST_ROOT, prefix) || IsUnder(RETRY_ROOT, prefix)
  {
  }

  /** Reaping some prefixes never touches an object under another canonical prefix. */
  lemma ReapingSparesOthers(objects: Objects, victim: string, kept: string, key: string)
    requires IsCanonical(victim) && IsCanonical(kept) && victim != kept
    requires key in objects && kept <= key
    ensures key in Without(objects, victim) && Without(objects, victim)[key] == objects[key]
  {
    if victim <= key { OneOwner(key, victim, kept); }
  }

  // ---------------------------------------------------------------- the bucket and its loops

  class Bucket {
    var objects: Objects
    /** Unfinished multipart uploads, by upload id. */
    var multiparts: map<string, string>

    constructor ()
      ensures objects == map[] && multiparts == map[]
    {
      objects, multiparts := map[], map[];
    }

    /** One pass over the keys listed under `root`, folded into the inventory so far. */
    method InventoryRoot(root: string, before: map<string, int>) returns (newest: map<string, int>)
      requires root in {FIRST_ROOT, RETRY_ROOT}
      requires forall p :: p in before ==> !IsUnder(root, p)
      ensures Inventories(newest, before, objects, objects.Keys, p => IsUnder(root, p))
    {
      newest := before;
      ghost var mine := p => IsUnder(root, p);
      ghost var done := set k | k in objects && !Lists(root, k);
      forall p, k | mine(p) && Dated(objects, p, k) ensures k !in done {}
      var todo := set k | k in objects && Lists(root, k);
      while todo != {}
        invariant todo !! done && todo + done == objects.Keys
        invariant forall k :: k in todo ==> Lists(root, k)
        invariant Inventories(newest, before, objects, done, mine)
      {
        var key :| key in todo;
        var prefix := PrefixOfKey(root, key);
        forall p ensures prefix == Some(p) <==> mine(p) && Lists(p, key) { OwnerOfKey(root, key, p); }
        NextKey(newest, before, objects, done, mine, key, prefix);
        newest := Newer(newest, prefix, objects[key].modified);
        todo, done := todo - {key}, done + {key};
      }
      assert done == objects.Keys;
    }

    method RetainedUploads() returns (newest: map<string, int>)
      ensures IsInventory(newest, objects)
    {
      var first := InventoryRoot(FIRST_ROOT, map[]);
      forall p { RootsDiffer(p); }
      newest := InventoryRoot(RETRY_ROOT, first);
      forall p ensures IsCanonical(p) <==> IsUnder(FIRST_ROOT, p) || IsUnder(RETRY_ROOT, p) {
        if IsCanonical(p) { CanonicalRoot(p); }
      }
      WholeInventory(first, newest, objects, p => IsUnder(FIRST_ROOT, p), p => IsUnder(RETRY_ROOT, p));
    }

    /** Refuses a prefix that is not canonical; otherwise the count is that of the uploads that are gone. */
    method AbortMultipartUploads(prefix: string) returns (r: Option<nat>)
      modifies this`multiparts
      ensures r.Some? <==> IsCanonical(prefix)
      ensures multiparts == if r.Some? then Unaborted(old(multiparts), prefix) else old(multiparts)
      ensures r.Some? ==> r.value == |old(multiparts)| - |multiparts|
    {
      if !IsCanonical(prefix) { return None; }
      var aborted := set u | u in multiparts && prefix <= multiparts[u];
      assert multiparts.Keys == (multiparts - aborted).Keys + aborted;
      multiparts := multiparts - aborted;
      r := Some(|aborted|);
    }

    /**
     * Refuses a prefix that is not canonical; otherwise deletes in batches of a thousand keys. `batches` is how many
     * requests the service answers before it fails: what was deleted until then stays deleted.
     */
    method CleanupModelPrefix(prefix: string, batches: nat) returns (r: Option<nat>)
      modifies this
      ensures r.Some? <==> Finishes(old(objects), prefix, batches)
      ensures r.Some? ==> objects == Without(old(objects), prefix)
      ensures r.Some? ==> r.value == |old(objects)| - |objects| + |old(multiparts)| - |multiparts|
      ensures multiparts == if IsCanonical(prefix) then Unaborted(old(multiparts), prefix) else old(multiparts)
      ensures IsTrimmed(old(objects), objects, prefix)
      ensures r.None? ==> |objects| == |old(objects)| - if IsCanonical(prefix) then 1000 * batches else 0
    {
      var aborted := AbortMultipartUploads(prefix);
      if aborted.None? { return None; }
      var keys := KeyList(Listing(objects, prefix));
      var sent := DeleteKeys(keys, batches);
      CountTrimmed(old(objects), keys, prefix, sent);
      if sent == |keys| { r := Some(|keys| + aborted.value); } else { r := None; }
    }

    /** Deletes the first of the keys, a thousand in a request, until the service fails. */
    method DeleteKeys(keys: seq<string>, batches: nat) returns (sent: nat)
      modifies this`objects
      ensures sent == if |keys| <= 1000 * batches then |keys| else 1000 * batches
      ensures objects == old(objects) - Elements(keys[..sent])
    {
      ghost var all := objects;
      var requests := 0;
      sent := 0;
      while sent < |keys|
        invariant sent <= |keys| && requests <= batches
        invariant sent == if |keys| <= 1000 * requests then |keys| else 1000 * requests
        invariant objects == all - Elements(keys[..sent])
      {
        if requests == batches { return; }
        var end := if sent + 1000 < |keys| then sent + 1000 else |keys|;
        var batch := keys[sent..end];
        assert Elements(keys[..end]) == Elements(keys[..sent]) + Elements(batch) by {
          assert keys[..end] == keys[..sent] + batch;
        }
        objects := objects - Elements(batch);
        sent, requests := end, requests + 1;
      }
    }

    /**
     * The reaper's pass over its plan: a clean-up that is refused or fails is skipped and left for a later pass.
     * Nothing outside the victims is deleted, what is protected stays, the victims whose clean-up runs through are
     * gone, and the count is that of these.
     */
    method Reap(newest: map<string, int>, cutoff: int, protected: set<string>, batches: string -> nat)
      returns (reaped: nat)
      modifies this
      ensures forall k :: k in objects ==> k in old(objects) && objects[k] == old(objects)[k]
      ensures forall k :: k in old(objects) && k !in objects ==> IsUnderSome(PlanReap(newest, cutoff, protected), k)
      ensures forall p, k :: p in protected && IsCanonical(p) && k in old(objects) && p <= k ==> k in objects
      ensures forall v, k :: v in Finished(old(objects), PlanReap(newest, cutoff, protected), batches) && k in objects
                             ==> !Lists(v, k)
      ensures reaped == |Finished(old(objects), PlanReap(newest, cutoff, protected), batches)|
    {
      reaped := 0;
      ghost var all, plan, done := objects, PlanReap(newest, cutoff, protected), {};
      var todo := PlanReap(newest, cutoff, protected);
      while todo != {}
        invariant todo !! done && todo + done == plan
        invariant IsPassedOver(all, objects, done, batches)
        invariant reaped == |Finished(all, done, batches)|
      {
        var victim :| victim in todo;
        SameListing(all, objects, done, victim, batches);
        ghost var before := objects;
        var removed := CleanupModelPrefix(victim, batches(victim));
        NextVictim(all, before, objects, done, victim, batches);
        if removed.Some? { reaped := reaped + 1; }
        todo, done := todo - {victim}, done + {victim};
      }
      assert done == plan;
      ProtectedStay(all, objects, plan, protected, batches);
    }
  }

  // ---------------------------------------------------------------- what the loops leave

  function Unaborted(multiparts: map<string, string>, prefix: string): map<string, string> {
    map u | u in multiparts && !(prefix <= multiparts[u]) :: multiparts[u]
  }

  function Listing(objects: Objects, prefix: string): set<string> {
    set k | k in objects && Lists(prefix, k)
  }

  function Elements(keys: seq<string>): set<string> { set k | k in keys }

  /** `objects'` is `objects` without some of the keys listed under `prefix`. */
  ghost predicate IsTrimmed(objects: Objects, objects': Objects, prefix: string) {
    && (forall k :: k in objects' ==> k in objects && objects'[k] == objects[k])
    && (forall k :: k in objects && k !in objects' ==> IsCanonical(prefix) && Lists(prefix, k))
  }

  /** The requests the service answers are enough to delete all that is under `prefix`. */
  predicate Finishes(objects: Objects, prefix: string, batches: nat) {
    IsCanonical(prefix) && |Listing(objects, prefix)| <= 1000 * batches
  }

  function Finished(objects: Objects, victims: set<string>, batches: string -> nat): set<string> {
    set v | v in victims && Finishes(objects, v, batches(v))
  }

  predicate IsUnderSome(victims: set<string>, key: string) {
    exists v :: v in victims && IsCanonical(v) && Lists(v, key)
  }

  ghost predicate IsPassedOver(all: Objects, objects: Objects, done: set<string>, batches: string -> nat) {
    && (forall k :: k in objects ==> k in all && objects[k] == all[k])
    && (forall k :: k in all && k !in objects ==> IsUnderSome(done, k))
    && (forall v, k :: v in Finished(all, done, batches) && k in objects ==> !Lists(v, k))
  }

  /** The listed keys one after another, each once. Only their number and their membership matter below. */
  method KeyList(listed: set<string>) returns (keys: seq<string>)
    ensures Elements(keys) == listed && |keys| == |listed|
    ensures forall i, j :: 0 <= i < j < |keys| ==> keys[i] != keys[j]
  {
    keys := [];
    var todo := listed;
    while todo != {}
      invariant Elements(keys) !! todo && Elements(keys) + todo == listed && |keys| + |todo| == |listed|
      invariant forall i, j :: 0 <= i < j < |keys| ==> keys[i] != keys[j]
    {
      var key :| key in todo;
      assert key !in keys by { assert key !in Elements(keys); }
      assert Elements(keys + [key]) == Elements(keys) + {key};
      keys, todo := keys + [key], todo - {key};
    }
  }

  lemma {:induction false} DistinctCount(keys: seq<string>)
    requires forall i, j :: 0 <= i < j < |keys| ==> keys[i] != keys[j]
    ensures |Elements(keys)| == |keys|
  {
    if keys != [] {
      var init := keys[..|keys| - 1];
      DistinctCount(init);
      assert Elements(keys) == Elements(init) + {keys[|keys| - 1]};
      assert keys[|keys| - 1] !in init;
    }
  }

  lemma CountTrimmed(all: Objects, keys: seq<string>, prefix: string, n: nat)
    requires Elements(keys) == Listing(all, prefix) && n <= |keys| && IsCanonical(prefix)
    requires forall i, j :: 0 <= i < j < |keys| ==> keys[i] != keys[j]
    ensures |all - Elements(keys[..n])| == |all| - n && IsTrimmed(all, all - Elements(keys[..n]), prefix)
    ensures n == |keys| ==> all - Elements(keys[..n]) == Without(all, prefix)
  {
    var gone := Elements(keys[..n]);
    DistinctCount(keys[..n]);
    assert gone <= Elements(keys);
    FewerObjects(all, gone);
    TrimmedBy(all, gone, prefix);
    if n == |keys| { assert keys[..n] == keys; }
  }

  lemma FewerObjects(all: Objects, gone: set<string>)
    requires gone <= all.Keys
    ensures |all - gone| == |all| - |gone|
  {
    assert all.Keys == (all - gone).Keys + gone;
  }

  lemma TrimmedBy(all: Objects, gone: set<string>, prefix: string)
    requires gone <= Listing(all, prefix) && IsCanonical(prefix)
    ensures gone <= all.Keys && IsTrimmed(all, all - gone, prefix)
    ensures gone == Listing(all, prefix) ==> all - gone == Without(all, prefix)
  {
  }

  lemma SameListing(all: Objects, objects: Objects, done: set<string>, victim: string, batches: string -> nat)
    requires IsPassedOver(all, objects, done, batches) && victim !in done
    ensures IsCanonical(victim) ==> Listing(objects, victim) == Listing(all, victim)
  {
    forall k | IsCanonical(victim) && k in Listing(all, victim) ensures k in objects {
      if k !in objects {
        var v :| v in done && IsCanonical(v) && Lists(v, k);
        OneOwner(k, v, victim);
      }
    }
  }

  lemma NextVictim(
    all: Objects, before: Objects, objects: Objects, done: set<string>, victim: string, batches: string -> nat)
    requires IsPassedOver(all, before, done, batches) && victim !in done
    requires IsCanonical(victim) ==> Listing(before, victim) == Listing(all, victim)
    requires IsTrimmed(before, objects, victim)
    requires Finishes(before, victim, batches(victim)) ==> objects == Without(before, victim)
    ensures IsPassedOver(all, objects, done + {victim}, batches)
    ensures |Finished(all, done + {victim}, batches)|
         == |Finished(all, done, batches)| + if Finishes(before, victim, batches(victim)) then 1 else 0
  {
    assert Finishes(all, victim, batches(victim)) <==> Finishes(before, victim, batches(victim));
    OneMoreFinished(all, done, victim, batches);
    StillPassedOver(all, before, objects, done, victim, batches);
  }

  lemma OneMoreFinished(all: Objects, done: set<string>, victim: string, batches: string -> nat)
    requires victim !in done
    ensures Finished(all, done + {victim}, batches)
         == Finished(all, done, batches) + if Finishes(all, victim, batches(victim)) then {victim} else {}
    ensures |Finished(all, done + {victim}, batches)|
         == |Finished(all, done, batches)| + if Finishes(all, victim, batches(victim)) then 1 else 0
  {
    var more := Finished(all, done + {victim}, batches);
    assert more == Finished(all, done, batches) + if Finishes(all, victim, batches(victim)) then {victim} else {};
  }

  lemma StillPassedOver(
    all: Objects, before: Objects, objects: Objects, done: set<string>, victim: string, batches: string -> nat)
    requires IsPassedOver(all, before, done, batches) && IsTrimmed(before, objects, victim)
    requires Finishes(all, victim, batches(victim)) ==> objects == Without(before, victim)
    ensures IsPassedOver(all, objects, done + {victim}, batches)
  {
    var more := done + {victim};
    forall k | k in all && k !in objects ensures IsUnderSome(more, k) {
      if k !in before { assert IsUnderSome(done, k); }
    }
    forall v, k | v in Finished(all, more, batches) && k in objects ensures !Lists(v, k) {
      assert v != victim ==> v in Finished(all, done, batches) && k in before;
    }
  }

  lemma ProtectedStay(all: Objects, objects: Objects, plan: set<string>, protected: set<string>, batches: string -> nat)
    requires IsPassedOver(all, objects, plan, batches) && plan !! protected
    ensures forall p, k :: p in protected && IsCanonical(p) && k in all && p <= k ==> k in objects
  {
    forall p, k | p in protected && IsCanonical(p) && k in all && p <= k ensures k in objects {
      if k !in objects {
        var v :| v in plan && IsCanonical(v) && Lists(v, k);
        OneOwner(k, v, p);
      }
    }
  }

  // ---------------------------------------------------------------- quota

  datatype Listed = Listed(key: string, size: nat)

  function TotalSize(items: seq<Listed>): nat {
    if items == [] then 0 else TotalSize(items[..|items| - 1]) + items[|items| - 1].size
  }

  function Flatten(pages: seq<seq<Listed>>): seq<Listed> {
    if pages == [] then [] else Flatten(pages[..|pages| - 1]) + pages[|pages| - 1]
  }

  predicate OverQuota(items: seq<Listed>, maxBytes: int) {
    TotalSize(items) > maxBytes || |items| > MAX_MINER_UPLOAD_OBJECTS
  }

  lemma {:induction false} QuotaIsMonotone(items: seq<Listed>, more: seq<Listed>, maxBytes: int)
    requires OverQuota(items, maxBytes)
    ensures OverQuota(items + more, maxBytes)
  {
    if more == [] {
      assert items + more == items;
    } else {
      var init := more[..|more| - 1];
      QuotaIsMonotone(items, init, maxBytes);
      assert (items + more)[..|items + more| - 1] == items + init;
    }
  }

  lemma {:induction false} FlattenPrefix(pages: seq<seq<Listed>>, i: nat)
    requires i <= |pages|
    ensures exists more :: Flatten(pages) == Flatten(pages[..i]) + more
  {
    if i == |pages| {
      assert pages[..i] == pages;
      assert Flatten(pages) == Flatten(pages[..i]) + [];
    } else {
      var init := pages[..|pages| - 1];
      FlattenPrefix(init, i);
      assert init[..i] == pages[..i];
      var more :| Flatten(init) == Flatten(init[..i]) + more;
      assert Flatten(pages) == Flatten(pages[..i]) + (more + pages[|pages| - 1]);
    }
  }

  /** What has been read when item `j` of page `i` is next. */
  function ReadSoFar(pages: seq<seq<Listed>>, i: nat, j: nat): seq<Listed>
    requires i < |pages| && j <= |pages[i]|
  {
    Flatten(pages[..i]) + pages[i][..j]
  }

  lemma StopEarly(pages: seq<seq<Listed>>, i: nat, j: nat, maxBytes: int)
    requires i < |pages| && j <= |pages[i]| && OverQuota(ReadSoFar(pages, i, j), maxBytes)
    ensures OverQuota(Flatten(pages), maxBytes)
  {
    QuotaIsMonotone(ReadSoFar(pages, i, j), pages[i][j..], maxBytes);
    PageEnd(pages, i);
    assert ReadSoFar(pages, i, j) + pages[i][j..] == ReadSoFar(pages, i, |pages[i]|);
    FlattenPrefix(pages, i + 1);
    var more :| Flatten(pages) == Flatten(pages[..i + 1]) + more;
    QuotaIsMonotone(Flatten(pages[..i + 1]), more, maxBytes);
  }

  lemma PageEnd(pages: seq<seq<Listed>>, i: nat)
    requires i < |pages|
    ensures ReadSoFar(pages, i, 0) == Flatten(pages[..i])
    ensures ReadSoFar(pages, i, |pages[i]|) == Flatten(pages[..i + 1])
  {
    assert pages[..i + 1][..i] == pages[..i];
  }

  lemma NextItem(pages: seq<seq<Listed>>, i: nat, j: nat)
    requires i < |pages| && j < |pages[i]|
    ensures TotalSize(ReadSoFar(pages, i, j + 1)) == TotalSize(ReadSoFar(pages, i, j)) + pages[i][j].size
    ensures |ReadSoFar(pages, i, j + 1)| == |ReadSoFar(pages, i, j)| + 1
  {
    var upTo := ReadSoFar(pages, i, j + 1);
    assert upTo[..|upTo| - 1] == ReadSoFar(pages, i, j);
  }

  /** Stopping at the first item past a cap gives the same verdict as counting every page. */
  method QuotaBreach(pages: seq<seq<Listed>>, maxBytes: int) returns (breach: bool)
    requires maxBytes >= 1
    ensures breach <==> OverQuota(Flatten(pages), maxBytes)
    ensures breach <==> TotalSize(Flatten(pages)) > maxBytes || |Flatten(pages)| > 4096
  {
    var total, count := 0, 0;
    for i := 0 to |pages|
      invariant total == TotalSize(Flatten(pages[..i])) && count == |Flatten(pages[..i])|
      invariant total <= maxBytes && count <= MAX_MINER_UPLOAD_OBJECTS
    {
      PageEnd(pages, i);
      for j := 0 to |pages[i]|
        invariant total == TotalSize(ReadSoFar(pages, i, j)) && count == |ReadSoFar(pages, i, j)|
        invariant total <= maxBytes && count <= MAX_MINER_UPLOAD_OBJECTS
      {
        NextItem(pages, i, j);
        count := count + 1;
        total := total + pages[i][j].size;
        if total > maxBytes || count > MAX_MINER_UPLOAD_OBJECTS {
          StopEarly(pages, i, j + 1, maxBytes);
          return true;
        }
      }
    }
    assert pages[..|pages|] == pages;
    breach := false;
  }

  /** The listing `verify_manifest` counts: folder markers left out. */
  function Files(items: seq<Listed>): seq<Listed> {
    if items == [] then []
    else
      var last := items[|items| - 1];
      Files(items[..|items| - 1]) + if EndsWithSlash(last.key) then [] else [last]
  }

  /** Whatever verification refuses for its size, the probe during the upload window reports too. */
  lemma {:induction false} ProbeCoversVerification(items: seq<Listed>, maxBytes: int)
    requires OverQuota(Files(items), maxBytes)
    ensures OverQuota(items, maxBytes)
  {
    FilesAreFewer(items);
  }

  lemma {:induction false} FilesAreFewer(items: seq<Listed>)
    ensures TotalSize(Files(items)) <= TotalSize(items) && |Files(items)| <= |items|
  {
    if items != [] {
      var init, last := items[..|items| - 1], items[|items| - 1];
      FilesAreFewer(init);
      if EndsWithSlash(last.key) {
        assert Files(items) == Files(init);
      } else {
        assert Files(items)[..|Files(items)| - 1] == Files(init);
      }
    }
  }
}

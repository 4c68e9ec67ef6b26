/** s3utils.py: the selection rule of `delete_old_keys_from_s3` over an abstract bucket, and
    the behaviour of `list_dir_s3`. */
module S3Utils {
  import opened Base
  import opened Text

  /** Line 17-18: a '/' is appended unless the name already ends in one; indexing the last
      character of the default empty name raises IndexError. */
  function NormaliseSubdirectory(sub: string): (r: Result<string>)
    ensures r.Err? <==> sub == ""
    ensures r.Err? ==> r.error == IndexError
    ensures r.Ok? ==> |r.value| > 0 && r.value[|r.value| - 1] == '/'
    ensures r.Ok? ==> r.value == sub || r.value == sub + "/"
    ensures r.Ok? && r.value == sub + "/" ==> sub[|sub| - 1] != '/'
  {
    if |sub| == 0 then Err(IndexError)
    else if sub[|sub| - 1] != '/' then Ok(sub + "/")
    else Ok(sub)
  }

  /** Normalising a normalised name changes nothing. */
  lemma NormaliseIdempotent(sub: string)
    requires sub != ""
    ensures NormaliseSubdirectory(NormaliseSubdirectory(sub).value) == NormaliseSubdirectory(sub)
  {
  }

  /** boto's `get_all_keys()` sends one List request, and S3 answers it with at most 1000 keys. */
  const PageSize: nat := 1000

  /** The keys `get_all_keys()` returns: the first page of the bucket's listing. */
  function FirstPage<T>(s: seq<T>): (p: seq<T>)
    ensures |p| <= PageSize && p <= s
    ensures |s| <= PageSize ==> p == s
    ensures |s| > PageSize ==> |p| == PageSize
  {
    if |s| <= PageSize then s else s[..PageSize]
  }

  /** A key as the loop reads it: its name, and its modification time (already parsed, in seconds). */
  datatype S3Key = S3Key(name: string, lastModified: int)

  /** Lines 24-27, with the normalised subdirectory. `subdirectory is not key.name` compares
      object identities, and the normalised text is a fresh object, so it never excludes a key. */
  predicate Selected(key: S3Key, sub: string, now: int, maxAge: int, bad: string)
  {
    && IsSubstring(sub, key.name)
    && now - key.lastModified >= maxAge
    && IsSubstring(bad, key.name)
  }

  /** The keys that remain after the purge, in bucket order. */
  function Kept(keys: seq<S3Key>, sub: string, now: int, maxAge: int, bad: string): seq<S3Key>
    decreases |keys|
  {
    if |keys| == 0 then []
    else
      var init := Kept(keys[..|keys| - 1], sub, now, maxAge, bad);
      if Selected(keys[|keys| - 1], sub, now, maxAge, bad) then init else init + [keys[|keys| - 1]]
  }

  /** The keys the purge deletes, in bucket order. */
  function Deleted(keys: seq<S3Key>, sub: string, now: int, maxAge: int, bad: string): seq<S3Key>
    decreases |keys|
  {
    if |keys| == 0 then []
    else
      var init := Deleted(keys[..|keys| - 1], sub, now, maxAge, bad);
      if Selected(keys[|keys| - 1], sub, now, maxAge, bad) then init + [keys[|keys| - 1]] else init
  }

  /** A key is deleted iff it is selected, and every other key remains; together the two lists
      hold the bucket's keys exactly (as a multiset). */
  lemma {:induction false} PurgeSpec(keys: seq<S3Key>, sub: string, now: int, maxAge: int, bad: string)
    ensures forall k :: k in Deleted(keys, sub, now, maxAge, bad) <==> k in keys && Selected(k, sub, now, maxAge, bad)
    ensures forall k :: k in Kept(keys, sub, now, maxAge, bad) <==> k in keys && !Selected(k, sub, now, maxAge, bad)
    ensures multiset(Kept(keys, sub, now, maxAge, bad)) + multiset(Deleted(keys, sub, now, maxAge, bad)) == multiset(keys)
    decreases |keys|
  {
    if |keys| > 0 {
      var init := keys[..|keys| - 1];
      PurgeSpec(init, sub, now, maxAge, bad);
      assert keys == init + [keys[|keys| - 1]];
    }
  }

  /** One key of the loop: deleting the key at the end of the kept prefix when it is selected
      (and nothing otherwise) moves the loop's picture of the bucket one key on. */
  lemma PurgeStep(listing: seq<S3Key>, rest: seq<S3Key>, i: nat, keys: seq<S3Key>, sub: string, now: int, maxAge: int, bad: string)
    requires i < |listing|
    requires keys == Kept(listing[..i], sub, now, maxAge, bad) + listing[i..] + rest
    ensures var j := |Kept(listing[..i], sub, now, maxAge, bad)|;
      j < |keys| && keys[j] == listing[i]
      && (Selected(listing[i], sub, now, maxAge, bad) ==>
            keys[..j] + keys[j + 1..] == Kept(listing[..i + 1], sub, now, maxAge, bad) + listing[i + 1..] + rest)
      && (!Selected(listing[i], sub, now, maxAge, bad) ==>
            keys == Kept(listing[..i + 1], sub, now, maxAge, bad) + listing[i + 1..] + rest)
  {
    var kept := Kept(listing[..i], sub, now, maxAge, bad);
    assert listing[..i + 1][..i] == listing[..i];
    assert listing[i..] == [listing[i]] + listing[i + 1..];
    assert keys == kept + [listing[i]] + (listing[i + 1..] + rest);
    assert keys[..|kept|] == kept && keys[|kept| + 1..] == listing[i + 1..] + rest;
  }

  /** The bucket's keys, in listing order. */
  class Bucket {
    var keys: seq<S3Key>

    constructor (keys: seq<S3Key>)
      ensures this.keys == keys
    {
      this.keys := keys;
    }

    /** `key.delete()` of the key at position j. */
    method DeleteAt(j: nat)
      requires j < |keys|
      modifies this
      ensures keys == old(keys[..j] + keys[j + 1..])
    {
      keys := keys[..j] + keys[j + 1..];
    }

    /** `delete_old_keys_from_s3`, with the clock reading `now` as an input. The default empty
        subdirectory raises before any key is examined, and the bucket is then left as it was.
        Otherwise the selected keys of the first listing page are deleted, and the keys past
        that page are not examined. */
    method DeleteOldKeys(maxAge: int, sub: string, bad: string, now: int) returns (r: Outcome)
      modifies this
      ensures sub == "" ==> r == Fail(IndexError) && keys == old(keys)
      ensures sub != "" ==>
        && r == Pass
        && keys == Kept(FirstPage(old(keys)), NormaliseSubdirectory(sub).value, now, maxAge, bad)
                   + old(keys)[|FirstPage(old(keys))|..]
    {
      var normalised := NormaliseSubdirectory(sub);
      if normalised.Err? {
        return Fail(normalised.error);
      }
      var listing := FirstPage(keys);
      PurgeListing(listing, keys[|listing|..], normalised.value, now, maxAge, bad);
      r := Pass;
    }

    /** The loop of lines 23-28 over `listing`, the bucket's first keys; the keys after them,
        `rest`, are not examined. */
    method PurgeListing(listing: seq<S3Key>, ghost rest: seq<S3Key>, subdirectory: string, now: int, maxAge: int, bad: string)
      requires keys == listing + rest
      modifies this
      ensures keys == Kept(listing, subdirectory, now, maxAge, bad) + rest
    {
      var j := 0;  // the position of listing[i] in the bucket
      for i := 0 to |listing|
        invariant keys == Kept(listing[..i], subdirectory, now, maxAge, bad) + listing[i..] + rest
        invariant j == |Kept(listing[..i], subdirectory, now, maxAge, bad)|
      {
        PurgeStep(listing, rest, i, keys, subdirectory, now, maxAge, bad);
        if Selected(listing[i], subdirectory, now, maxAge, bad) {
          DeleteAt(j);
        } else {
          j := j + 1;
        }
      }
      assert listing[..|listing|] == listing;
    }
  }

  lemma EmptyIsSubstring(s: string)
    ensures IsSubstring("", s)
  {
    assert s[..0] == "";
  }

  lemma SelfIsSubstring(s: string)
    ensures IsSubstring(s, s)
  {
    assert s[..|s|] == s;
  }

  /** The default empty `bad_substring` occurs in every name, so only the subdirectory and the
      age decide. */
  lemma EmptyBadSubstringMatchesAll(key: S3Key, sub: string, now: int, maxAge: int)
    ensures Selected(key, sub, now, maxAge, "") <==> IsSubstring(sub, key.name) && now - key.lastModified >= maxAge
  {
    EmptyIsSubstring(key.name);
  }

  /** The identity test does not spare the key that names the subdirectory itself: it is
      deleted when it is old enough and holds the bad substring. */
  lemma SubdirectoryKeySelected(sub: string, lastModified: int, now: int, maxAge: int, bad: string)
    requires sub != ""
    requires now - lastModified >= maxAge
    requires IsSubstring(bad, NormaliseSubdirectory(sub).value)
    ensures var norm := NormaliseSubdirectory(sub).value;
      Selected(S3Key(norm, lastModified), norm, now, maxAge, bad)
  {
    SelfIsSubstring(NormaliseSubdirectory(sub).value);
  }

  /** The age test is inclusive: a key exactly `max_age` old is old enough. */
  lemma AgeInclusive(name: string, sub: string, now: int, maxAge: int, bad: string)
    requires IsSubstring(sub, name) && IsSubstring(bad, name)
    ensures Selected(S3Key(name, now - maxAge), sub, now, maxAge, bad)
    ensures !Selected(S3Key(name, now - maxAge + 1), sub, now, maxAge, bad)
  {
  }

  /** Line 34: the names that contain `directory`. */
  function Containing(names: seq<string>, directory: string): (r: seq<string>)
    ensures forall n :: n in r <==> n in names && IsSubstring(directory, n)
    decreases |names|
  {
    if |names| == 0 then []
    else
      var init := Containing(names[..|names| - 1], directory);
      assert names == names[..|names| - 1] + [names[|names| - 1]];
      if IsSubstring(directory, names[|names| - 1]) then init + [names[|names| - 1]] else init
  }

  /** `list_dir_s3` over the bucket's key names, of which `get_all_keys()` returns the first
      page: it never returns normally. `list.remove`
      raises ValueError when no name equals `directory`; otherwise it returns None, and
      iterating over None at line 36 raises TypeError. */
  function ListDirS3(directory: string, names: seq<string>): (r: Result<seq<string>>)
  {
    var filenames := Containing(FirstPage(names), directory);
    if directory !in filenames then Err(ValueError) else Err(TypeError)
  }

  lemma ListDirNeverReturns(directory: string, names: seq<string>)
    ensures ListDirS3(directory, names).Err?
    ensures ListDirS3(directory, names).error == (if directory in FirstPage(names) then TypeError else ValueError)
  {
    SelfIsSubstring(directory);
  }
}

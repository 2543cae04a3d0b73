/**
 The sidecar index of the analysis storage (crates/rgctl-analysis/src/storage.rs): a table from stable key to
 entry that survives between discover runs. Files on disk are not modelled; the table is the `index` field.
 */
module AnalysisStorage {

  type Uuid = nat

  const SEPARATOR: char := '\U{1f}'

  /** One remembered function: its key, its current graph id, and what the analysis found. */
  datatype IndexEntry = IndexEntry(
    stableKey: string,
    functionId: Uuid,
    codeHash: string,
    flowCount: nat,
    vulnerableCount: nat)

  /** What `sync_index_function_ids` needs to know of a function of the current graph. */
  datatype SyncEntry = SyncEntry(functionId: Uuid, functionName: string, filePath: string, codeHash: string)

  type Index = map<string, IndexEntry>

  function StableFunctionKey(filePath: string, functionName: string, codeHash: string): string {
    filePath + [SEPARATOR] + functionName + [SEPARATOR] + codeHash
  }

  /** The text does not contain the separator character that keys are joined with. */
  predicate Clean(text: string) {
    SEPARATOR !in text
  }

  lemma SplitAtFirstSeparator(a: string, b: string, a': string, b': string)
    requires Clean(a) && Clean(a')
    requires a + [SEPARATOR] + b == a' + [SEPARATOR] + b'
    ensures a == a' && b == b'
  {
    var whole, whole' := a + [SEPARATOR] + b, a' + [SEPARATOR] + b';
    assert |a| == |a'| by {
      assert whole[|a|] == SEPARATOR;
      assert whole'[|a'|] == SEPARATOR;
    }
    assert a == whole[..|a|];
    assert a' == whole'[..|a'|];
    assert b == whole[|a| + 1..];
    assert b' == whole'[|a'| + 1..];
  }

  /** Keys identify their three parts as soon as path and name are free of the separator. */
  lemma StableKeyInjective(file: string, name: string, hash: string, file': string, name': string, hash': string)
    requires Clean(file) && Clean(name) && Clean(file') && Clean(name')
    requires StableFunctionKey(file, name, hash) == StableFunctionKey(file', name', hash')
    ensures file == file' && name == name' && hash == hash'
  {
    var rest, rest' := name + [SEPARATOR] + hash, name' + [SEPARATOR] + hash';
    assert StableFunctionKey(file, name, hash) == file + [SEPARATOR] + rest;
    assert StableFunctionKey(file', name', hash') == file' + [SEPARATOR] + rest';
    SplitAtFirstSeparator(file, rest, file', rest');
    SplitAtFirstSeparator(name, hash, name', hash');
  }

  /** Without that restriction keys collide: two different functions can own the same key. */
  lemma StableKeyCollides(part: string, hash: string)
    ensures StableFunctionKey(part, part + [SEPARATOR] + part, hash)
              == StableFunctionKey(part + [SEPARATOR] + part, part, hash)
    ensures part != part + [SEPARATOR] + part
  {
    assert |part| != |part + [SEPARATOR] + part|;
  }

  /** No other three parts have this key. */
  ghost predicate Unambiguous(file: string, name: string, hash: string) {
    forall f, n, h ::
      StableFunctionKey(f, n, h) == StableFunctionKey(file, name, hash) ==> f == file && n == name && h == hash
  }

  /** A key identifies its parts among all others exactly when none of them contains the separator. */
  lemma UnambiguousExactly(file: string, name: string, hash: string)
    ensures Unambiguous(file, name, hash) <==> Clean(file) && Clean(name) && Clean(hash)
  {
    if Clean(file) && Clean(name) && Clean(hash) {
      forall f, n, h | StableFunctionKey(f, n, h) == StableFunctionKey(file, name, hash)
        ensures f == file && n == name && h == hash
      {
        Separators(f, n, h);
        Separators(file, name, hash);
        StableKeyInjective(f, n, h, file, name, hash);
      }
    } else {
      var f, n, h := OtherParts(file, name, hash);
    }
  }

  /** A key has two separators more than its parts. */
  lemma Separators(file: string, name: string, hash: string)
    ensures multiset(StableFunctionKey(file, name, hash))[SEPARATOR]
         == multiset(file)[SEPARATOR] + multiset(name)[SEPARATOR] + multiset(hash)[SEPARATOR] + 2
  {
  }

  lemma Parted(s: string) returns (a: string, b: string)
    requires !Clean(s)
    ensures s == a + [SEPARATOR] + b
  {
    var i :| 0 <= i < |s| && s[i] == SEPARATOR;
    a, b := s[..i], s[i + 1..];
  }

  /** Where one part contains the separator, the key can be read in another way. */
  lemma OtherParts(file: string, name: string, hash: string) returns (f: string, n: string, h: string)
    requires !(Clean(file) && Clean(name) && Clean(hash))
    ensures StableFunctionKey(f, n, h) == StableFunctionKey(file, name, hash)
    ensures !(f == file && n == name && h == hash)
  {
    if !Clean(file) {
      var a, b := Parted(file);
      f, n, h := a, b + [SEPARATOR] + name, hash;
      assert |f| < |file|;
    } else if !Clean(name) {
      var a, b := Parted(name);
      f, n, h := file + [SEPARATOR] + a, b, hash;
      assert |f| > |file|;
    } else {
      var a, b := Parted(hash);
      f, n, h := file, name + [SEPARATOR] + a, b;
      assert |n| > |name|;
    }
  }

  /** The table after inserting `entries` from left to right; a later entry replaces an earlier one of its key. */
  function Inserted(index: Index, entries: seq<IndexEntry>): Index {
    if entries == [] then index
    else
      var last := entries[|entries| - 1];
      Inserted(index, entries[..|entries| - 1])[last.stableKey := last]
  }

  /** The table after pointing the entry of one function at its current id. */
  function SyncedOne(index: Index, f: SyncEntry): Index {
    var key := StableFunctionKey(f.filePath, f.functionName, f.codeHash);
    if key in index && index[key].codeHash == f.codeHash then index[key := index[key].(functionId := f.functionId)]
    else index
  }

  function Synced(index: Index, functions: seq<SyncEntry>): Index {
    if functions == [] then index
    else SyncedOne(Synced(index, functions[..|functions| - 1]), functions[|functions| - 1])
  }

  /** The table restricted to the given keys. */
  function Restricted(index: Index, keys: set<string>): Index {
    map key | key in index && key in keys :: index[key]
  }

  /** The last entry of its key is the one that stays. */
  lemma {:induction false} LastEntryStays(index: Index, entries: seq<IndexEntry>, i: nat)
    requires i < |entries| && forall j | i < j < |entries| :: entries[j].stableKey != entries[i].stableKey
    ensures entries[i].stableKey in Inserted(index, entries)
    ensures Inserted(index, entries)[entries[i].stableKey] == entries[i]
  {
    var n := |entries| - 1;
    if i < n {
      LastEntryStays(index, entries[..n], i);
    }
  }

  /** What no entry names stays as it was. */
  lemma {:induction false} OthersStay(index: Index, entries: seq<IndexEntry>, key: string)
    requires forall e <- entries :: e.stableKey != key
    ensures key in index <==> key in Inserted(index, entries)
    ensures key in index ==> Inserted(index, entries)[key] == index[key]
  {
    if entries != [] {
      assert entries[|entries| - 1] in entries;
      OthersStay(index, entries[..|entries| - 1], key);
    }
  }

  /** Id sync leaves an entry alone unless some function has its key and its very hash. */
  lemma {:induction false} SyncTouchesOwnersOnly(index: Index, functions: seq<SyncEntry>, key: string)
    requires key in index
    requires forall f <- functions ::
               StableFunctionKey(f.filePath, f.functionName, f.codeHash) != key || f.codeHash != index[key].codeHash
    ensures key in Synced(index, functions) && Synced(index, functions)[key] == index[key]
  {
    if functions != [] {
      assert functions[|functions| - 1] in functions;
      SyncTouchesOwnersOnly(index, functions[..|functions| - 1], key);
    }
  }

  /** A key begins with the path and ends with the hash. */
  lemma KeyParts(filePath: string, functionName: string, codeHash: string)
    ensures var key := StableFunctionKey(filePath, functionName, codeHash);
            && filePath + ['\U{1f}'] + functionName <= key
            && key == key[..|key| - |codeHash| - 1] + ['\U{1f}'] + codeHash
  {
    var key := StableFunctionKey(filePath, functionName, codeHash);
    assert key == filePath + ['\U{1f}'] + functionName + (['\U{1f}'] + codeHash);
    assert key[..|key| - |codeHash| - 1] == filePath + ['\U{1f}'] + functionName;
  }

  /** Two tables hold the same entries, except perhaps for the function ids. */
  ghost predicate SameUpToIds(a: Index, b: Index) {
    && a.Keys == b.Keys
    && forall key <- a :: a[key].(functionId := b[key].functionId) == b[key]
  }

  lemma {:induction false} SyncKeepsFindings(index: Index, functions: seq<SyncEntry>)
    ensures SameUpToIds(index, Synced(index, functions))
  {
    if functions != [] {
      SyncKeepsFindings(index, functions[..|functions| - 1]);
    }
  }

  /** The storage manager: it owns the table and changes it in place. */
  class Storage {
    var index: Index

    constructor (initial: Index)
      ensures index == initial
    {
      index := initial;
    }

    method RefreshAnalysisIndexFromEntries(entries: seq<IndexEntry>)
      modifies this
      ensures index == Inserted(old(index), entries)
    {
      for i := 0 to |entries|
        invariant index == Inserted(old(index), entries[..i])
      {
        assert entries[..i + 1][..i] == entries[..i];
        index := index[entries[i].stableKey := entries[i]];
      }
      assert entries[..|entries|] == entries;
    }

    /** Work on a copy and write it back only when some id changed, as the storage manager does. */
    method SyncIndexFunctionIds(functions: seq<SyncEntry>) returns (remapped: nat)
      modifies this
      ensures index == Synced(old(index), functions)
    {
      var current := index;
      remapped := 0;
      for i := 0 to |functions|
        invariant index == old(index)
        invariant current == Synced(old(index), functions[..i])
        invariant remapped == 0 ==> current == index
      {
        assert functions[..i + 1][..i] == functions[..i];
        var f := functions[i];
        var key := StableFunctionKey(f.filePath, f.functionName, f.codeHash);
        if key !in current {
          continue;
        }
        if current[key].codeHash != f.codeHash {
          continue;
        }
        if current[key].functionId == f.functionId {
          assert current[key := current[key].(functionId := f.functionId)] == current;
          continue;
        }
        current := current[key := current[key].(functionId := f.functionId)];
        remapped := remapped + 1;
      }
      assert functions[..|functions|] == functions;
      if remapped > 0 {
        index := current;
      }
    }

    /** Drop every entry whose key is not active, visiting the table in an arbitrary order. */
    method PurgeStaleByStableKeys(activeKeys: set<string>)
      modifies this
      ensures index == Restricted(old(index), activeKeys)
    {
      var next := index;
      var pending := index.Keys;
      while pending != {}
        invariant index == old(index)
        invariant pending <= index.Keys
        invariant next == map key | key in index && (key in pending || key in activeKeys) :: index[key]
        decreases |pending|
      {
        var key :| key in pending;
        pending := pending - {key};
        if key in activeKeys {
          continue;
        }
        next := next - {key};
      }
      if |next| != |index| {
        index := next;
      } else {
        NothingDropped(index, next);
      }
    }
  }

  /** A sub-table of the same size is the table: the reason why the unchanged case need not be written. */
  lemma NothingDropped(whole: Index, part: Index)
    requires part.Keys <= whole.Keys && |part| == |whole|
    requires forall key <- part :: part[key] == whole[key]
    ensures part == whole
  {
    assert |part.Keys| == |part| && |whole.Keys| == |whole|;
    if part.Keys < whole.Keys {
      SubsetSmaller(part.Keys, whole.Keys);
    }
    assert part.Keys == whole.Keys;
  }

  lemma SubsetSmaller<T>(a: set<T>, b: set<T>)
    requires a < b
    ensures |a| < |b|
  {
    assert b == a + (b - a);
    var x :| x in b - a;
  }
}

/**
 * The tag stores tagcli works on, with the mutagen library abstracted to a
 * map from tag key to the list of raw values stored under it: `load`'s
 * choice of store by extension, the normalising view `SimpleDict`, the
 * `**meta` expansion a rename performs, and the field assignments of an
 * update.
 */
module Tags {
  import opened Wrappers
  import opened Text
  import opened Paths

  /** A loaded tag store: each present key with its list of raw values. */
  type Store = map<string, seq<string>>

  /** The mutagen class `load` instantiates: EasyMP4 or EasyID3. */
  datatype Kind = Mp4 | Id3

  /**
   * `load(filename)`: the store kind by extension, compared exactly;
   * any other extension raises NotImplementedError with this message.
   */
  function Load(path: string): Result<Kind, string>
  {
    var ext := Ext(path);
    if ext == ".m4a" then Success(Mp4)
    else if ext == ".mp3" then Success(Id3)
    else Failure("unknown extension: " + ext)
  }

  predicate EndsWith(s: string, suffix: string)
  {
    |suffix| <= |s| && s[|s| - |suffix|..] == suffix
  }

  lemma {:induction false} ExtOfSuffix(p: string, e: string)
    requires |e| == 4 && e[0] == '.' && '.' !in e[1..] && '/' !in e
    requires EndsWith(p, e) && !AllChar(Basename(p[..|p| - 4]), '.')
    ensures Ext(p) == e
  {
    var root := p[..|p| - 4];
    assert p == root + e;
    LastIndexAppend(root, e, '/');
    var sep := LastIndex(p, '/');
    assert sep == LastIndex(root, '/');
    assert p[|root|] == '.';
    assert e[1..] == p[|root| + 1..];
    var dot := LastIndex(p, '.');
    LastIndexUnique(p, '.', |root|);
    assert p[sep + 1..dot] == Basename(root);
  }

  /**
   * A path loads exactly when it ends in ".mp3" (an ID3 store) or ".m4a"
   * (an MP4 store), case-sensitively, and the base name before that suffix
   * is not made of dots alone; otherwise the error names the extension.
   */
  lemma LoadAccepts(p: string)
    ensures Load(p) == Success(Id3) <==>
      EndsWith(p, ".mp3") && !AllChar(Basename(p[..|p| - 4]), '.')
    ensures Load(p) == Success(Mp4) <==>
      EndsWith(p, ".m4a") && !AllChar(Basename(p[..|p| - 4]), '.')
    ensures Load(p).Failure? ==> Load(p).error == "unknown extension: " + Ext(p)
  {
    var e := Ext(p);
    if e == ".mp3" || e == ".m4a" {
      assert EndsWith(p, e) && !AllChar(Basename(p[..|p| - 4]), '.') by {
        var root := SplitExt(p).0;
        assert p == root + e;
        assert p[..|p| - 4] == root;
        ExtAfterName(p);
      }
    }
    if EndsWith(p, ".mp3") && !AllChar(Basename(p[..|p| - 4]), '.') {
      ExtOfSuffix(p, ".mp3");
    }
    if EndsWith(p, ".m4a") && !AllChar(Basename(p[..|p| - 4]), '.') {
      ExtOfSuffix(p, ".m4a");
    }
  }

  /** A value of the normalising view: an integer or a text. */
  datatype Value = Num(n: nat) | Str(s: string)

  /** The exceptions `SimpleDict.__getitem__` can raise. */
  datatype ViewError = KeyError(key: string) | IndexError(key: string) | ValueError(literal: string)

  /** The keys whose values are stored as "N" or "N/total". */
  predicate IsNumberKey(key: string)
  {
    key == "tracknumber" || key == "discnumber"
  }

  /**
   * `SimpleDict.__getitem__`: the integer before the first '/' of the first
   * raw value for the number keys, the first raw value itself for the other
   * keys, and KeyError for a key the store does not hold.
   */
  function Get(store: Store, key: string): (r: Result<Value, ViewError>)
    ensures r.Success? ==> key in store && store[key] != []
    ensures key !in store ==> r == Failure(KeyError(key))
    ensures key in store && store[key] == [] ==> r == Failure(IndexError(key))
  {
    if key !in store then Failure(KeyError(key))
    else if store[key] == [] then Failure(IndexError(key))
    else if IsNumberKey(key) then
      var prefix := BeforeSlash(store[key][0]);
      match ParseNat(prefix)
      case Some(n) => Success(Num(n))
      case None => Failure(ValueError(prefix))
    else Success(Str(store[key][0]))
  }

  /** "N/total" reads as the integer N, never as text. */
  lemma GetNumberPair(store: Store, key: string, n: nat, total: string)
    requires IsNumberKey(key) && key in store && store[key] != []
    requires store[key][0] == NatToString(n) + "/" + total
    ensures Get(store, key) == Success(Num(n))
  {
    BeforeSlashOfPair(NatToString(n), total);
    ParseNatToString(n);
  }

  /** A bare "N" reads as the integer N. */
  lemma GetNumberAlone(store: Store, key: string, n: nat)
    requires IsNumberKey(key) && key in store && store[key] != []
    requires store[key][0] == NatToString(n)
    ensures Get(store, key) == Success(Num(n))
  {
    BeforeSlashNoSlash(NatToString(n));
    ParseNatToString(n);
  }

  /** Any digit string before the first '/' reads as its decimal value, leading zeros included. */
  lemma GetNumberDigits(store: Store, key: string)
    requires IsNumberKey(key) && key in store && store[key] != []
    requires BeforeSlash(store[key][0]) != "" && AllDigits(BeforeSlash(store[key][0]))
    ensures Get(store, key) == Success(Num(DigitsValue(BeforeSlash(store[key][0]))))
  {
  }

  /** "0N/total", as a tagger that pads track numbers writes it, still reads as N. */
  lemma {:induction false} GetNumberZeroPadded(store: Store, key: string, n: nat, width: nat, total: string)
    requires IsNumberKey(key) && key in store && store[key] != []
    requires store[key][0] == ZeroPad(NatToString(n), width) + "/" + total
    ensures Get(store, key) == Success(Num(n))
  {
    var padded := ZeroPad(NatToString(n), width);
    ZeroPadSpec(NatToString(n), width);
    assert '/' !in padded by {
      forall j | 0 <= j < |padded| ensures padded[j] != '/' {
        if j >= |padded| - |NatToString(n)| {
          assert padded[j] == NatToString(n)[j - (|padded| - |NatToString(n)|)];
        }
      }
    }
    BeforeSlashOfPair(padded, total);
    ParseZeroPadded(n, width);
  }

  /** A number key whose text before '/' is not a digit string raises ValueError. */
  lemma GetNumberMalformed(store: Store, key: string)
    requires IsNumberKey(key) && key in store && store[key] != []
    requires BeforeSlash(store[key][0]) == "" || !AllDigits(BeforeSlash(store[key][0]))
    ensures Get(store, key) == Failure(ValueError(BeforeSlash(store[key][0])))
  {
  }

  /** Any other present key reads as its first raw value, unchanged. */
  lemma GetOther(store: Store, key: string)
    requires !IsNumberKey(key) && key in store && store[key] != []
    ensures Get(store, key) == Success(Str(store[key][0]))
  {
  }

  /**
   * `**meta`: the keyword arguments a rename passes to `str.format`, which
   * reads the view for every key the store holds before formatting; any
   * key whose view raises makes the whole expansion raise.
   */
  function Expand(store: Store): Option<map<string, Value>>
  {
    if forall k | k in store :: Get(store, k).Success? then
      Some(map k | k in store :: Get(store, k).value)
    else None
  }

  /** Assignments `key: value` in dictionary order; keys are distinct in a dict. */
  type Assignments = seq<(string, string)>

  predicate DistinctKeys<V>(items: seq<(string, V)>)
  {
    forall i, j :: 0 <= i < j < |items| ==> items[i].0 != items[j].0
  }

  /** The value a dictionary of assignments holds for `key`. */
  function FieldValue(fields: Assignments, key: string): Option<string>
  {
    if fields == [] then None
    else if fields[0].0 == key then Some(fields[0].1)
    else FieldValue(fields[1..], key)
  }

  /**
   * `options.update(key=value)` on a dict: the value of an existing key is
   * replaced where it stands, a new key goes last.
   */
  function SetField(fields: Assignments, key: string, value: string): (r: Assignments)
    requires DistinctKeys(fields)
    ensures DistinctKeys(r)
    ensures FieldValue(r, key) == Some(value)
    ensures forall k :: k != key ==> FieldValue(r, k) == FieldValue(fields, k)
    ensures |r| == |fields| + (if FieldValue(fields, key).None? then 1 else 0)
  {
    if fields == [] then [(key, value)]
    else if fields[0].0 == key then
      assert FieldValue(fields[1..], key).None? by { FieldValueNotAfter(fields); }
      [(key, value)] + fields[1..]
    else
      var r := [fields[0]] + SetField(fields[1..], key, value);
      assert r[1..] == SetField(fields[1..], key, value);
      assert DistinctKeys(r) by {
        forall j | 0 < j < |r| ensures r[0].0 != r[j].0 {
          if r[j].0 == fields[0].0 {
            FieldValueAt(r[1..], j - 1);
            FieldValueNotAfter(fields);
          }
        }
      }
      r
  }

  lemma {:induction false} FieldValueAt(fields: Assignments, j: nat)
    requires DistinctKeys(fields) && j < |fields|
    ensures FieldValue(fields, fields[j].0) == Some(fields[j].1)
  {
    if j > 0 { FieldValueAt(fields[1..], j - 1); }
  }

  lemma {:induction false} FieldValueIn(fields: Assignments, key: string)
    requires FieldValue(fields, key).Some?
    ensures exists j :: 0 <= j < |fields| && fields[j] == (key, FieldValue(fields, key).value)
  {
    if fields[0].0 != key {
      FieldValueIn(fields[1..], key);
      var j :| 0 <= j < |fields[1..]| && fields[1..][j] == (key, FieldValue(fields, key).value);
      assert fields[j + 1] == fields[1..][j];
    }
  }

  lemma FieldValueNotAfter(fields: Assignments)
    requires DistinctKeys(fields) && fields != []
    ensures FieldValue(fields[1..], fields[0].0).None?
  {
    if FieldValue(fields[1..], fields[0].0).Some? {
      FieldValueIn(fields[1..], fields[0].0);
    }
  }

  /** Setting the same key twice keeps only the second value, in place. */
  lemma {:induction false} SetFieldTwice(fields: Assignments, key: string, a: string, b: string)
    requires DistinctKeys(fields)
    ensures SetField(SetField(fields, key, a), key, b) == SetField(fields, key, b)
  {
    if fields != [] && fields[0].0 != key {
      SetFieldTwice(fields[1..], key, a, b);
      assert SetField(fields, key, a)[1..] == SetField(fields[1..], key, a);
    }
  }

  /** `meta.update(options)`: each assignment in order, as a dict update does. */
  function ApplyFields(store: Store, fields: Assignments): Store
    decreases |fields|
  {
    if fields == [] then store
    else ApplyFields(store[fields[0].0 := [fields[0].1]], fields[1..])
  }

  /**
   * After `meta.update(options)` each assigned key holds the assigned value
   * as its only raw value, and every other tag is left as it was.
   */
  lemma {:induction false} ApplyFieldsSpec(store: Store, fields: Assignments)
    requires DistinctKeys(fields)
    ensures forall k :: k in ApplyFields(store, fields) <==> k in store || FieldValue(fields, k).Some?
    ensures forall k :: FieldValue(fields, k).Some? ==> ApplyFields(store, fields)[k] == [FieldValue(fields, k).value]
    ensures forall k :: k in store && FieldValue(fields, k).None? ==> ApplyFields(store, fields)[k] == store[k]
    decreases |fields|
  {
    if fields != [] {
      assert DistinctKeys(fields[1..]);
      FieldValueNotAfter(fields);
      ApplyFieldsSpec(store[fields[0].0 := [fields[0].1]], fields[1..]);
    }
  }
}

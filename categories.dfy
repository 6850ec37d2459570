/** `glUtils._updateBarcodeToLUTIndexDict`: every distinct barcode of the loaded
    marker data gets a dense lookup-table index, in the order barcodes are first
    seen, together with the key its style inputs are filed under. */
module Categories {
  import opened JsValues

  /** One row of the processed barcode data. `x` and `y` are the global position
      columns as numbers, `color` the per-marker colour property when present. */
  datatype BarcodeRecord = BarcodeRecord(x: JsNum, y: JsNum, letters: string, geneName: string, color: Option<string>)

  /** The two dictionaries being built and the running `index`. */
  datatype Dicts = Dicts(toIndex: map<string, int>, toKey: map<string, string>, next: int)

  /** The key a barcode's style inputs are found under: the barcode itself when the
      key column is "letters", otherwise the key derived from the gene name. */
  function KeyOf(keyName: string, keyFrom: string -> string, r: BarcodeRecord): (key: string)
  {
    if keyName == "letters" then r.letters else keyFrom(r.geneName)
  }

  /** One iteration of the loop: only a barcode not seen before is entered. */
  function Step(d: Dicts, r: BarcodeRecord, keyName: string, keyFrom: string -> string): (next: Dicts)
  {
    if r.letters in d.toIndex then d
    else Dicts(d.toIndex[r.letters := d.next], d.toKey[r.letters := KeyOf(keyName, keyFrom, r)], d.next + 1)
  }

  /** The dictionaries after the loop has run over all of recs, starting empty. */
  function Assign(recs: seq<BarcodeRecord>, keyName: string, keyFrom: string -> string): (d: Dicts)
  {
    if recs == [] then Dicts(map[], map[], 0)
    else Step(Assign(recs[..|recs| - 1], keyName, keyFrom), recs[|recs| - 1], keyName, keyFrom)
  }

  /** The distinct barcodes of recs, each where it first occurs. */
  function FirstSeen(recs: seq<BarcodeRecord>): (order: seq<string>)
  {
    if recs == [] then []
    else
      var p := FirstSeen(recs[..|recs| - 1]);
      var b := recs[|recs| - 1].letters;
      if b in p then p else p + [b]
  }

  /** Some record of recs carries barcode b. */
  predicate Occurs(recs: seq<BarcodeRecord>, b: string)
  {
    exists i :: 0 <= i < |recs| && recs[i].letters == b
  }

  /** m numbers the elements of order by their positions, and nothing else. */
  predicate Enumerates(m: map<string, int>, order: seq<string>)
  {
    (forall i :: 0 <= i < |order| ==> order[i] in m && m[order[i]] == i)
    && (forall b :: b in m ==> 0 <= m[b] < |order| && order[m[b]] == b)
  }

  /** The loop keeps the index dictionary numbering the first-seen list, the running
      index equal to its length, and the key dictionary on the same barcodes. */
  lemma {:induction false} AssignEnumerates(recs: seq<BarcodeRecord>, keyName: string, keyFrom: string -> string)
    ensures var d := Assign(recs, keyName, keyFrom);
      Enumerates(d.toIndex, FirstSeen(recs)) && d.next == |FirstSeen(recs)| && d.toKey.Keys == d.toIndex.Keys
  {
    if recs != [] {
      var pre := recs[..|recs| - 1];
      AssignEnumerates(pre, keyName, keyFrom);
      var d, p, b := Assign(pre, keyName, keyFrom), FirstSeen(pre), recs[|recs| - 1].letters;
      assert b in d.toIndex <==> b in p;
      if b !in p {
        var d' := Assign(recs, keyName, keyFrom);
        var p' := p + [b];
        assert d'.toIndex == d.toIndex[b := |p|];
        forall i | 0 <= i < |p'| ensures p'[i] in d'.toIndex && d'.toIndex[p'[i]] == i {
          if i < |p| { assert p'[i] == p[i] && p[i] != b; }
        }
      }
    }
  }

  /** The first-seen list holds exactly the barcodes that occur. */
  lemma {:induction false} FirstSeenLetters(recs: seq<BarcodeRecord>, b: string)
    ensures b in FirstSeen(recs) <==> Occurs(recs, b)
  {
    if recs != [] {
      var pre := recs[..|recs| - 1];
      FirstSeenLetters(pre, b);
      if Occurs(pre, b) {
        var i :| 0 <= i < |pre| && pre[i].letters == b;
        assert recs[i].letters == b;
      }
      if Occurs(recs, b) && recs[|recs| - 1].letters != b {
        var i :| 0 <= i < |recs| && recs[i].letters == b;
        assert pre[i].letters == b;
      }
    }
  }

  /** The indices are exactly 0 .. k-1 for the k distinct barcodes, one barcode each,
      and the dictionaries hold exactly the barcodes that occur. */
  lemma AssignIndices(recs: seq<BarcodeRecord>, keyName: string, keyFrom: string -> string)
    ensures var d := Assign(recs, keyName, keyFrom);
      var k := |FirstSeen(recs)|;
      (forall b :: b in d.toIndex <==> Occurs(recs, b))
      && d.toKey.Keys == d.toIndex.Keys
      && (forall b :: b in d.toIndex ==> 0 <= d.toIndex[b] < k)
      && (forall j :: 0 <= j < k ==> j in d.toIndex.Values)
      && (forall b, c :: b in d.toIndex && c in d.toIndex && d.toIndex[b] == d.toIndex[c] ==> b == c)
  {
    var d, order := Assign(recs, keyName, keyFrom), FirstSeen(recs);
    AssignEnumerates(recs, keyName, keyFrom);
    forall b ensures b in d.toIndex <==> Occurs(recs, b) {
      FirstSeenLetters(recs, b);
      if b in order {
        var i :| 0 <= i < |order| && order[i] == b;
      }
    }
    forall j | 0 <= j < |order| ensures j in d.toIndex.Values {
      assert order[j] in d.toIndex;
    }
  }

  /** Later records never change an entry made by an earlier one. */
  lemma {:induction false} AssignExtends(recs: seq<BarcodeRecord>, keyName: string, keyFrom: string -> string, j: nat, k: nat)
    requires j <= k <= |recs|
    ensures Extends(Assign(recs[..j], keyName, keyFrom), Assign(recs[..k], keyName, keyFrom))
    decreases k
  {
    if j < k {
      AssignExtends(recs, keyName, keyFrom, j, k - 1);
      var a, c := Assign(recs[..k - 1], keyName, keyFrom), Assign(recs[..k], keyName, keyFrom);
      assert recs[..k][..k - 1] == recs[..k - 1];
      assert c == Step(a, recs[k - 1], keyName, keyFrom);
      AssignEnumerates(recs[..k - 1], keyName, keyFrom);
      StepExtends(a, recs[k - 1], keyName, keyFrom);
    }
  }

  /** d' keeps every entry of d. */
  predicate Extends(d: Dicts, d': Dicts)
  {
    (forall b :: b in d.toIndex ==> b in d'.toIndex && d'.toIndex[b] == d.toIndex[b])
    && (forall b :: b in d.toKey ==> b in d'.toKey && d'.toKey[b] == d.toKey[b])
  }

  lemma StepExtends(d: Dicts, r: BarcodeRecord, keyName: string, keyFrom: string -> string)
    requires d.toKey.Keys == d.toIndex.Keys
    ensures Extends(d, Step(d, r, keyName, keyFrom))
  {
  }

  /** A barcode's first occurrence, at record i, fixes its entries for good: its index
      is the number of distinct barcodes before it, its key is taken from that record. */
  lemma FirstOccurrence(recs: seq<BarcodeRecord>, keyName: string, keyFrom: string -> string, i: nat)
    requires i < |recs| && !Occurs(recs[..i], recs[i].letters)
    ensures var d, b := Assign(recs, keyName, keyFrom), recs[i].letters;
      b in d.toIndex && d.toIndex[b] == |FirstSeen(recs[..i])|
      && b in d.toKey && d.toKey[b] == KeyOf(keyName, keyFrom, recs[i])
  {
    var b := recs[i].letters;
    var pre := recs[..i];
    AssignEnumerates(pre, keyName, keyFrom);
    FirstSeenLetters(pre, b);
    assert b !in Assign(pre, keyName, keyFrom).toIndex;
    assert recs[..i + 1][..i] == pre;
    AssignExtends(recs, keyName, keyFrom, i + 1, |recs|);
    assert recs[..|recs|] == recs;
  }

  /** Indices follow first-seen order: a barcode first met at record j gets a larger
      index than every barcode met before it. */
  lemma FirstSeenOrder(recs: seq<BarcodeRecord>, keyName: string, keyFrom: string -> string, i: nat, j: nat)
    requires i < j < |recs| && !Occurs(recs[..j], recs[j].letters)
    ensures var d := Assign(recs, keyName, keyFrom);
      recs[i].letters in d.toIndex && recs[j].letters in d.toIndex
      && d.toIndex[recs[i].letters] < d.toIndex[recs[j].letters]
  {
    var pre := recs[..j];
    var b := recs[i].letters;
    AssignEnumerates(pre, keyName, keyFrom);
    FirstSeenLetters(pre, b);
    assert pre[i].letters == b;
    AssignExtends(recs, keyName, keyFrom, j, |recs|);
    assert recs[..|recs|] == recs;
    FirstOccurrence(recs, keyName, keyFrom, j);
  }
}

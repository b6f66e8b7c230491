/** The list of pictures as it travels in a parcel of 32-bit words.

    Reading past the end of a parcel yields zero. */
module PictureParcel {
  import opened Paths

  const VECTOR_MAX_SIZE := 6

  datatype PictureInfo = PictureInfo(
    foldState: FoldState,
    rotateState: RotateState,
    fd: int,
    length: int,
    tempPath: string)

  datatype Reading = Nothing | List(pictures: seq<PictureInfo>)

  /** Conversion of a size to int32_t. */
  function ToInt32(n: int): int {
    (n + 0x8000_0000) % 0x1_0000_0000 - 0x8000_0000
  }

  function FoldCode(f: FoldState): int {
    match f
    case Normal => 0
    case Unfold1 => 1
    case Unfold2 => 2
  }

  function RotateCode(r: RotateState): int {
    match r
    case Port => 0
    case Land => 1
  }

  predicate AreStates(fold: int, rotate: int) {
    0 <= fold <= 2 && 0 <= rotate <= 1
  }

  function FoldFrom(n: int): FoldState {
    if n == 0 then Normal else if n == 1 then Unfold1 else Unfold2
  }

  function RotateFrom(n: int): RotateState {
    if n == 0 then Port else Land
  }

  function PictureWords(p: PictureInfo): seq<int> {
    [FoldCode(p.foldState), RotateCode(p.rotateState), p.fd, p.length]
  }

  function ListWords(ps: seq<PictureInfo>): (w: seq<int>)
    ensures |w| == 4 * |ps|
  {
    if ps == [] then [] else ListWords(ps[..|ps| - 1]) + PictureWords(ps[|ps| - 1])
  }

  /** The words Marshalling writes. */
  function Words(ps: seq<PictureInfo>): seq<int> {
    [ToInt32(|ps|)] + ListWords(ps)
  }

  function Word(w: seq<int>, i: nat): int {
    if i < |w| then w[i] else 0
  }

  function PictureAt(w: seq<int>, i: nat): PictureInfo {
    PictureInfo(FoldFrom(Word(w, i)), RotateFrom(Word(w, i + 1)), Word(w, i + 2), Word(w, i + 3), "")
  }

  /** The pictures in the words from `i` on; nothing as soon as a state is invalid. */
  function ReadList(w: seq<int>, i: nat, n: nat): (r: Reading)
    ensures r.List? ==> |r.pictures| == n
  {
    if n == 0 then List([])
    else
      var before := ReadList(w, i, n - 1);
      var at := i + 4 * (n - 1);
      if before.Nothing? || !AreStates(Word(w, at), Word(w, at + 1)) then Nothing
      else List(before.pictures + [PictureAt(w, at)])
  }

  /** What Unmarshalling makes of the words from `i` on. */
  function Read(w: seq<int>, i: nat): Reading {
    var n := Word(w, i);
    if n < 0 || n > VECTOR_MAX_SIZE then Nothing else ReadList(w, i + 1, n)
  }

  predicate NoTempPaths(ps: seq<PictureInfo>) {
    forall k :: 0 <= k < |ps| ==> ps[k].tempPath == ""
  }

  /** From `i` on the parcel reads as the words `v`. */
  ghost predicate ReadsAs(w: seq<int>, i: nat, v: seq<int>) {
    forall k :: 0 <= k < |v| ==> Word(w, i + k) == v[k]
  }

  lemma ReadsAsParts(w: seq<int>, i: nat, u: seq<int>, v: seq<int>)
    ensures ReadsAs(w, i, u + v) <==> ReadsAs(w, i, u) && ReadsAs(w, i + |u|, v)
  {
    var whole := u + v;
    if ReadsAs(w, i, whole) {
      forall k | 0 <= k < |u| ensures Word(w, i + k) == u[k] {
        assert Word(w, i + k) == whole[k];
      }
      forall k | 0 <= k < |v| ensures Word(w, i + |u| + k) == v[k] {
        assert Word(w, i + (|u| + k)) == whole[|u| + k];
      }
    }
    if ReadsAs(w, i, u) && ReadsAs(w, i + |u|, v) {
      forall k | 0 <= k < |whole| ensures Word(w, i + k) == whole[k] {
        if k >= |u| { assert Word(w, i + |u| + (k - |u|)) == v[k - |u|]; }
      }
    }
  }

  lemma SameEnds(before: seq<PictureInfo>, one: PictureInfo, rest: seq<PictureInfo>, last: PictureInfo)
    requires |before| == |rest|
    ensures before + [one] == rest + [last] <==> before == rest && one == last
    ensures NoTempPaths(rest + [last]) <==> NoTempPaths(rest) && last.tempPath == ""
  {
    var n := |rest|;
    if before + [one] == rest + [last] {
      assert before == (before + [one])[..n] == (rest + [last])[..n] == rest;
      assert (before + [one])[n] == (rest + [last])[n];
    }
    var ps := rest + [last];
    if NoTempPaths(ps) {
      assert forall k :: 0 <= k < n ==> rest[k] == ps[k];
      assert ps[n] == last;
    }
  }

  lemma {:induction false} ListReadsAs(w: seq<int>, i: nat, ps: seq<PictureInfo>)
    ensures ReadList(w, i, |ps|) == List(ps) <==> ReadsAs(w, i, ListWords(ps)) && NoTempPaths(ps)
  {
    hide ReadsAs, PictureAt, PictureWords, AreStates;
    if ps == [] {
      NothingToRead(w, i);
    } else {
      var n := |ps| - 1;
      var rest, last := ps[..n], ps[n];
      var at := i + 4 * n;
      assert ps == rest + [last];
      ListReadsAs(w, i, rest);
      ReadsAsParts(w, i, ListWords(rest), PictureWords(last));
      OneReadsAs(w, at, last);
      var before := ReadList(w, i, n);
      SameEnds(if before.List? then before.pictures else rest, PictureAt(w, at), rest, last);
      hide NoTempPaths;
    }
  }

  lemma OneWord(w: seq<int>, i: nat, n: int)
    ensures ReadsAs(w, i, [n]) <==> Word(w, i) == n
  {
    if ReadsAs(w, i, [n]) { assert Word(w, i + 0) == [n][0]; }
  }

  lemma NothingToRead(w: seq<int>, i: nat)
    ensures ReadsAs(w, i, [])
  {
  }

  lemma OneReadsAs(w: seq<int>, i: nat, p: PictureInfo)
    ensures AreStates(Word(w, i), Word(w, i + 1)) && PictureAt(w, i) == p <==>
              ReadsAs(w, i, PictureWords(p)) && p.tempPath == ""
  {
    var v := PictureWords(p);
    if ReadsAs(w, i, v) {
      assert Word(w, i + 0) == v[0] && Word(w, i + 1) == v[1] && Word(w, i + 2) == v[2] && Word(w, i + 3) == v[3];
    }
  }

  /** Unmarshalling gives a list exactly when the parcel reads as what Marshalling writes for it, and the
      list is within the limit. */
  lemma ReadInvertsWords(w: seq<int>, i: nat, ps: seq<PictureInfo>)
    ensures Read(w, i) == List(ps) <==> |ps| <= 6 && ReadsAs(w, i, Words(ps)) && NoTempPaths(ps)
  {
    var v := Words(ps);
    ListReadsAs(w, i + 1, ps);
    if |ps| <= VECTOR_MAX_SIZE {
      assert ToInt32(|ps|) == |ps|;
      ReadsAsParts(w, i, [ToInt32(|ps|)], ListWords(ps));
      OneWord(w, i, |ps|);
    }
  }

  function WithoutTempPaths(ps: seq<PictureInfo>): (qs: seq<PictureInfo>)
    ensures |qs| == |ps| && forall k :: 0 <= k < |ps| ==> qs[k] == ps[k].(tempPath := "")
  {
    seq(|ps|, k requires 0 <= k < |ps| => ps[k].(tempPath := ""))
  }

  lemma {:induction false} SameWords(ps: seq<PictureInfo>)
    ensures ListWords(WithoutTempPaths(ps)) == ListWords(ps)
  {
    if ps != [] {
      SameWords(ps[..|ps| - 1]);
      assert WithoutTempPaths(ps)[..|ps| - 1] == WithoutTempPaths(ps[..|ps| - 1]);
    }
  }

  /** Whatever surrounds it in the parcel, a list of up to six pictures is read back, temporary paths
      excepted; a longer one is refused. */
  lemma RoundTrip(before: seq<int>, ps: seq<PictureInfo>, after: seq<int>)
    requires |ps| < 0x8000_0000
    ensures Read(before + Words(ps) + after, |before|) ==
            if |ps| <= 6 then List(WithoutTempPaths(ps)) else Nothing
  {
    var w := before + Words(ps) + after;
    assert Word(w, |before|) == ToInt32(|ps|) == |ps|;
    if |ps| <= VECTOR_MAX_SIZE {
      SameWords(ps);
      assert Words(WithoutTempPaths(ps)) == Words(ps);
      assert forall k :: 0 <= k < |Words(ps)| ==> w[|before| + k] == Words(ps)[k];
      ReadInvertsWords(w, |before|, WithoutTempPaths(ps));
    }
  }

  lemma {:induction false} WordsOfOne(ps: seq<PictureInfo>, k: nat)
    requires k < |ps|
    ensures ListWords(ps)[4 * k..4 * k + 4] == PictureWords(ps[k])
  {
    var n := |ps| - 1;
    var before, last := ListWords(ps[..n]), PictureWords(ps[n]);
    assert ListWords(ps) == before + last && |before| == 4 * n && |last| == 4;
    hide ListWords, PictureWords;
    if k < n {
      WordsOfOne(ps[..n], k);
      assert (before + last)[4 * k..4 * k + 4] == before[4 * k..4 * k + 4];
    } else {
      assert (before + last)[4 * n..4 * n + 4] == last;
    }
  }

  /** The words of a list: how many pictures there are, and for each its fold state as 0, 1 or 2, its rotate
      state as 0 or 1, its descriptor and its length. Where the parcel ends a list reads as empty. */
  lemma WordsSay(ps: seq<PictureInfo>, k: nat)
    requires k < |ps| < 0x8000_0000
    ensures |Words(ps)| == 1 + 4 * |ps| && Words(ps)[0] == |ps|
    ensures var fold := match ps[k].foldState case Normal => 0 case Unfold1 => 1 case Unfold2 => 2;
            var rotate := match ps[k].rotateState case Port => 0 case Land => 1;
            Words(ps)[1 + 4 * k..5 + 4 * k] == [fold, rotate, ps[k].fd, ps[k].length]
    ensures Read([], 0) == List([])
  {
    WordsOfOne(ps, k);
    hide ListWords;
    assert Words(ps)[1 + 4 * k..5 + 4 * k] == ListWords(ps)[4 * k..4 * k + 4];
  }

  class Parcel {
    var words: seq<int>
    var cursor: nat
    /** How many writes found no room. */
    ghost var refused: nat

    constructor ()
      ensures words == [] && cursor == 0 && refused == 0
    {
      words, cursor, refused := [], 0, 0;
    }

    method WriteInt32(value: int) returns (ok: bool)
      modifies this
      ensures cursor == old(cursor)
      ensures words == if ok then old(words) + [value] else old(words)
      ensures refused == if ok then old(refused) else old(refused) + 1
    {
      if * {
        refused := refused + 1;
        return false;
      }
      words := words + [value];
      return true;
    }

    method ReadInt32() returns (value: int)
      modifies this
      ensures words == old(words) && value == Word(words, old(cursor))
      ensures cursor == if old(cursor) < |words| then old(cursor) + 1 else old(cursor)
      ensures refused == old(refused)
    {
      if cursor < |words| {
        value := words[cursor];
        cursor := cursor + 1;
      } else {
        value := 0;
      }
    }
  }

  lemma OneMoreWritten(ps: seq<PictureInfo>, i: nat)
    requires i < |ps|
    ensures ListWords(ps[..i + 1]) == ListWords(ps[..i]) + PictureWords(ps[i])
  {
    assert ps[..i + 1][..i] == ps[..i];
  }

  /** The four words of one picture. */
  method WritePicture(p: PictureInfo, parcel: Parcel) returns (ok: bool)
    modifies parcel
    ensures parcel.cursor == old(parcel.cursor) && parcel.refused >= old(parcel.refused)
    ensures ok <==> parcel.refused == old(parcel.refused)
    ensures ok ==> parcel.words == old(parcel.words) + PictureWords(p)
  {
    var a := parcel.WriteInt32(FoldCode(p.foldState));
    var b := parcel.WriteInt32(RotateCode(p.rotateState));
    var c := parcel.WriteInt32(p.fd);
    var d := parcel.WriteInt32(p.length);
    ok := a && b && c && d;
  }

  method Marshalling(ps: seq<PictureInfo>, parcel: Parcel) returns (status: bool)
    modifies parcel
    ensures parcel.cursor == old(parcel.cursor)
    ensures status <==> parcel.refused == old(parcel.refused)
    ensures status ==> parcel.words == old(parcel.words) + Words(ps)
  {
    status := parcel.WriteInt32(ToInt32(|ps|));
    for i := 0 to |ps|
      invariant parcel.cursor == old(parcel.cursor) && parcel.refused >= old(parcel.refused)
      invariant status <==> parcel.refused == old(parcel.refused)
      invariant status ==> parcel.words == old(parcel.words) + [ToInt32(|ps|)] + ListWords(ps[..i])
    {
      ghost var before := parcel.words;
      var ok := WritePicture(ps[i], parcel);
      status := status && ok;
      OneMoreWritten(ps, i);
      assert status ==>
               parcel.words == old(parcel.words) + [ToInt32(|ps|)] + (ListWords(ps[..i]) + PictureWords(ps[i]));
    }
    assert ps[..|ps|] == ps;
    assert old(parcel.words) + [ToInt32(|ps|)] + ListWords(ps) == old(parcel.words) + Words(ps);
  }

  /** The cursor after `k` reads. */
  function Advanced(length: nat, cursor: nat, k: nat): nat {
    if cursor >= length then cursor else if cursor + k <= length then cursor + k else length
  }

  lemma AdvancedAgain(length: nat, cursor: nat, j: nat, k: nat)
    ensures Advanced(length, Advanced(length, cursor, j), k) == Advanced(length, cursor, j + k)
    ensures Advanced(length, cursor, j) == cursor + j || (Advanced(length, cursor, j) >= length && cursor + j >= length)
  {
  }

  lemma OneMoreRead(w: seq<int>, i: nat, n: nat)
    ensures ReadList(w, i, n + 1) ==
            var before, at := ReadList(w, i, n), i + 4 * n;
            if before.Nothing? || !AreStates(Word(w, at), Word(w, at + 1)) then Nothing
            else List(before.pictures + [PictureAt(w, at)])
  {
  }

  /** One turn of the reader's loop; nothing at an invalid state. */
  method ReadPicture(parcel: Parcel, ghost at: nat) returns (r: Reading)
    requires parcel.cursor == at || (parcel.cursor >= |parcel.words| && at >= |parcel.words|)
    modifies parcel
    ensures parcel.words == old(parcel.words)
    ensures r == if !AreStates(Word(parcel.words, at), Word(parcel.words, at + 1)) then Nothing
                 else List([PictureAt(parcel.words, at)])
    ensures r.List? ==> parcel.cursor == Advanced(|parcel.words|, old(parcel.cursor), 4)
  {
    var foldStateValue := parcel.ReadInt32();
    var rotateStateValue := parcel.ReadInt32();
    if !AreStates(foldStateValue, rotateStateValue) {
      return Nothing;
    }
    var fd := parcel.ReadInt32();
    var length := parcel.ReadInt32();
    r := List([PictureInfo(FoldFrom(foldStateValue), RotateFrom(rotateStateValue), fd, length, "")]);
  }

  lemma ReadBegins(w: seq<int>, i: nat)
    ensures var n := Word(w, i);
            Read(w, i) == if n > VECTOR_MAX_SIZE || n < 0 then Nothing else ReadList(w, i + 1, n)
  {
  }

  method Unmarshalling(parcel: Parcel) returns (r: Reading)
    modifies parcel
    ensures parcel.words == old(parcel.words)
    ensures r == Read(parcel.words, old(parcel.cursor))
    ensures r.List? ==> parcel.cursor == Advanced(|parcel.words|, old(parcel.cursor), 1 + 4 * |r.pictures|)
  {
    hide Read, AreStates, Word, PictureAt;
    ghost var start := parcel.cursor;
    ReadBegins(parcel.words, start);
    var vectorSize := parcel.ReadInt32();
    if vectorSize > VECTOR_MAX_SIZE || vectorSize < 0 {
      return Nothing;
    }
    var list: seq<PictureInfo> := [];
    for i := 0 to vectorSize
      invariant parcel.words == old(parcel.words)
      invariant ReadList(parcel.words, start + 1, i) == List(list)
      invariant parcel.cursor == Advanced(|parcel.words|, start, 1 + 4 * i)
    {
      hide ReadList, Advanced;
      AdvancedAgain(|parcel.words|, start, 1 + 4 * i, 4);
      var one := ReadPicture(parcel, start + 1 + 4 * i);
      OneMoreRead(parcel.words, start + 1, i);
      if one.Nothing? {
        RefusedEarly(parcel.words, start + 1, i + 1, vectorSize);
        return Nothing;
      }
      list := list + one.pictures;
    }
    r := List(list);
  }

  lemma {:induction false} RefusedEarly(w: seq<int>, i: nat, k: nat, n: nat)
    requires k <= n && ReadList(w, i, k).Nothing?
    ensures ReadList(w, i, n).Nothing?
  {
    if k < n {
      RefusedEarly(w, i, k, n - 1);
    }
  }
}

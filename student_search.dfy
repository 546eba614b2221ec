/** json_test.go: the first-match search nilaiPertama over a fixed array of
    51 student records. */
module StudentSearch {

  /** The array size nMax. */
  const NMax := 51

  /** A student record: student number, name, grade. */
  datatype Mahasiswa = Mahasiswa(nim: string, nama: string, nilai: int)

  /** The grade of the first of the first n records with that student
      number, or -1. */
  function FirstNilai(s: seq<Mahasiswa>, n: int, nim: string): int
    requires n <= |s|
    decreases if n <= 0 then 0 else n
  {
    if n <= 0 then -1
    else if s[0].nim == nim then s[0].nilai
    else FirstNilai(s[1..], n - 1, nim)
  }

  /** nilaiPertama: scans the indices below N in order and returns the grade
      of the first record whose number matches, or -1 when none does. */
  method NilaiPertama(T: array<Mahasiswa>, N: int, nim: string) returns (r: int)
    requires T.Length == NMax
    requires N <= NMax
    ensures (forall i :: 0 <= i < N ==> T[i].nim != nim) ==> r == -1
    ensures forall i :: 0 <= i < N && T[i].nim == nim && (forall k :: 0 <= k < i ==> T[k].nim != nim) ==>
              r == T[i].nilai
    ensures r == FirstNilai(T[..], N, nim)
  {
    for i := 0 to if N < 0 then 0 else N
      invariant forall k :: 0 <= k < i ==> T[k].nim != nim
    {
      if T[i].nim == nim {
        FirstNilaiAt(T[..], N, nim, i);
        return T[i].nilai;
      }
    }
    FirstNilaiNone(T[..], N, nim);
    return -1;
  }

  /** With no matching record below n, FirstNilai is -1. */
  lemma {:induction false} FirstNilaiNone(s: seq<Mahasiswa>, n: int, nim: string)
    requires n <= |s|
    requires forall i :: 0 <= i < n ==> s[i].nim != nim
    ensures FirstNilai(s, n, nim) == -1
    decreases if n <= 0 then 0 else n
  {
    if n > 0 {
      assert s[0].nim != nim;
      forall i | 0 <= i < n - 1 ensures s[1..][i].nim != nim {
        assert s[1..][i] == s[i + 1];
      }
      FirstNilaiNone(s[1..], n - 1, nim);
    }
  }

  /** With i the smallest matching index below n, FirstNilai is the grade
      of record i. */
  lemma {:induction false} FirstNilaiAt(s: seq<Mahasiswa>, n: int, nim: string, i: int)
    requires n <= |s|
    requires 0 <= i < n && s[i].nim == nim
    requires forall k :: 0 <= k < i ==> s[k].nim != nim
    ensures FirstNilai(s, n, nim) == s[i].nilai
    decreases i
  {
    if i > 0 {
      assert s[0].nim != nim;
      assert s[1..][i - 1] == s[i];
      forall k | 0 <= k < i - 1 ensures s[1..][k].nim != nim {
        assert s[1..][k] == s[k + 1];
      }
      FirstNilaiAt(s[1..], n - 1, nim, i - 1);
    }
  }

  /** Records at index n or beyond never affect the result. */
  lemma {:induction false} FirstNilaiIgnoresTail(s1: seq<Mahasiswa>, s2: seq<Mahasiswa>, n: int, nim: string)
    requires n <= |s1| && n <= |s2|
    requires forall i :: 0 <= i < n ==> s1[i] == s2[i]
    ensures FirstNilai(s1, n, nim) == FirstNilai(s2, n, nim)
    decreases if n <= 0 then 0 else n
  {
    if n > 0 {
      assert s1[0] == s2[0];
      forall i | 0 <= i < n - 1 ensures s1[1..][i] == s2[1..][i] {
        assert s1[1..][i] == s1[i + 1] && s2[1..][i] == s2[i + 1];
      }
      FirstNilaiIgnoresTail(s1[1..], s2[1..], n - 1, nim);
    }
  }

  /** -1 means "no match" exactly when no record below n carries the grade
      -1 under that number: otherwise a found grade of -1 cannot be told
      apart from a miss. */
  lemma NotFoundIff(s: seq<Mahasiswa>, n: int, nim: string)
    requires n <= |s|
    requires forall i :: 0 <= i < n && s[i].nim == nim ==> s[i].nilai != -1
    ensures FirstNilai(s, n, nim) == -1 <==> forall i :: 0 <= i < n ==> s[i].nim != nim
  {
    if exists i :: 0 <= i < n && s[i].nim == nim {
      var i := FirstMatch(s, n, nim);
      FirstNilaiAt(s, n, nim, i);
    } else {
      FirstNilaiNone(s, n, nim);
    }
  }

  /** The smallest matching index, when there is one. */
  lemma FirstMatch(s: seq<Mahasiswa>, n: int, nim: string) returns (i: int)
    requires n <= |s|
    requires exists j :: 0 <= j < n && s[j].nim == nim
    ensures 0 <= i < n && s[i].nim == nim && forall k :: 0 <= k < i ==> s[k].nim != nim
  {
    var j :| 0 <= j < n && s[j].nim == nim;
    i := 0;
    while s[i].nim != nim
      invariant 0 <= i <= j
      invariant forall k :: 0 <= k < i ==> s[k].nim != nim
      decreases j - i
    {
      i := i + 1;
    }
  }

  /** A found grade of -1 reads as a miss: the records [("113", "A", -1)]
      give -1 although record 0 matches. */
  lemma SentinelAmbiguity()
    ensures FirstNilai([Mahasiswa("113", "A", -1)], 1, "113") == -1
  {
  }
}

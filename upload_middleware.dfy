/**
 * The upload middleware: which files are accepted, and where and under
 * which name an accepted file is stored. `Date.now()` is a parameter.
 */
module UploadMiddleware {
  import opened Text
  import opened NodePath

  /** Every accepted file is written to this directory. */
  const Destination: string := "uploads/budgets/"

  const CsvType: string := "text/csv"
  const XlsType: string := "application/vnd.ms-excel"
  const XlsxType: string := "application/vnd.openxmlformats-officedocument.spreadsheetml.sheet"
  const AllowedTypes: seq<string> := [CsvType, XlsType, XlsxType]

  const RejectMessage: string := "Only CSV or Excel files are allowed"

  datatype Verdict = Accept | Reject(message: string)

  /** `fileFilter`: the decision rests on the declared mimetype alone. */
  function FileFilter(mimetype: string): (v: Verdict)
    ensures v == Accept <==> mimetype == CsvType || mimetype == XlsType || mimetype == XlsxType
    ensures v != Accept ==> v == Reject(RejectMessage)
  {
    if mimetype in AllowedTypes then Accept else Reject(RejectMessage)
  }

  /** `filename`: `${baseName}-${Date.now()}${ext}`. */
  function StoredName(originalName: string, now: nat): (r: string)
    ensures NoSeparator(r)
  {
    var digits := "-" + NatToString(now);
    StemAndExtensionHaveNoSeparator(originalName);
    assert NoSeparator(digits) by {
      forall i | 0 <= i < |digits| ensures digits[i] != '/' {
        if i > 0 {
          assert digits[i] == NatToString(now)[i - 1];
        }
      }
    }
    NoSeparatorConcat(Stem(originalName), digits);
    NoSeparatorConcat(Stem(originalName) + digits, ExtName(originalName));
    Stem(originalName) + digits + ExtName(originalName)
  }

  /**
   * The stored name keeps the original's extension, for every original name
   * except one whose last component is "..", which has no extension but
   * whose stored name "..-<time>" has one.
   */
  lemma StoredNameKeepsExtension(originalName: string, now: nat)
    ensures ExtName(StoredName(originalName, now)) == ExtName(originalName)
        <==> LastComponent(originalName) != ".."
  {
    PlainNameIsLastComponent(StoredName(originalName, now));
    if ExtName(originalName) != [] {
      KeepsPresentExtension(originalName, now);
    } else if LastComponent(originalName) == ".." {
      DotDotGainsExtension(originalName, now);
    } else {
      KeepsMissingExtension(originalName, now);
    }
  }

  lemma {:induction false} KeepsPresentExtension(originalName: string, now: nat)
    requires ExtName(originalName) != []
    ensures ExtName(StoredName(originalName, now)) == ExtName(originalName)
  {
    var digits := NatToString(now);
    var head := Stem(originalName) + ("-" + digits);
    assert head[|head| - 1] == digits[|digits| - 1];
    ExtensionShape(originalName);
    ExtensionAfterHead(head, ExtName(originalName), StoredName(originalName, now));
  }

  /** An extension is empty, or a dot followed by characters that are not dots. */
  lemma ExtensionShape(p: string)
    ensures ExtName(p) == [] || ExtName(p)[0] == '.'
    ensures forall i :: 0 < i < |ExtName(p)| ==> ExtName(p)[i] != '.'
  {
  }

  /** A file name made of a head not ending in a dot and an extension has that extension. */
  lemma ExtensionAfterHead(head: string, e: string, w: string)
    requires head != [] && head[|head| - 1] != '.'
    requires e != [] && e[0] == '.' && forall i :: 0 < i < |e| ==> e[i] != '.'
    requires NoSeparator(w) && w == head + e
    ensures ExtName(w) == e
  {
    PlainNameIsLastComponent(w);
    DotOfSuffix(head, e);
    assert w[|head| - 1] == head[|head| - 1];
  }

  /** A suffix that starts with the only dot after index 0 holds the last dot of the whole. */
  lemma {:induction false} DotOfSuffix(head: string, e: string)
    requires head != [] && e != [] && e[0] == '.'
    requires forall i :: 0 < i < |e| ==> e[i] != '.'
    ensures LastDot(head + e) == |head|
    ensures (head + e)[LastDot(head + e)..] == e
  {
    var w := head + e;
    forall j | |head| < j < |w| ensures w[j] != '.' {
      assert w[j] == e[j - |head|];
    }
    LastDotAt(w, |head|);
    assert w[|head|..] == e;
  }

  lemma {:induction false} DotDotGainsExtension(originalName: string, now: nat)
    requires LastComponent(originalName) == ".."
    ensures ExtName(originalName) == []
    ensures ExtName(StoredName(originalName, now)) != []
  {
    var tail := "-" + NatToString(now);
    var w := StoredName(originalName, now);
    assert ExtName(originalName) == [];
    assert Stem(originalName) == "..";
    assert w == ".." + tail;
    assert w == "." + ("." + tail);
    PlainNameIsLastComponent(w);
    DigitsHaveNoDot(tail);
    DotOfSuffix(".", "." + tail);
  }

  lemma {:induction false} KeepsMissingExtension(originalName: string, now: nat)
    requires ExtName(originalName) == [] && LastComponent(originalName) != ".."
    ensures ExtName(StoredName(originalName, now)) == []
  {
    var c := LastComponent(originalName);
    var tail := "-" + NatToString(now);
    var w := StoredName(originalName, now);
    assert Stem(originalName) == c;
    assert w == c + tail;
    PlainNameIsLastComponent(w);
    DigitsHaveNoDot(tail);
    LastDotOfDotless(c, tail);
  }

  /** "-" followed by the decimal digits of a time holds no dot. */
  lemma DigitsHaveNoDot(tail: string)
    requires tail != [] && tail[0] == '-' && forall i :: 0 < i < |tail| ==> IsDigit(tail[i])
    ensures forall i :: 0 <= i < |tail| ==> tail[i] != '.'
  {
  }

  /** Appending text without dots leaves the last dot where it was. */
  lemma {:induction false} LastDotOfDotless(head: string, tail: string)
    requires forall i :: 0 <= i < |tail| ==> tail[i] != '.'
    ensures LastDot(head + tail) == LastDot(head)
  {
    var w := head + tail;
    var d := LastDot(head);
    forall j | d < j < |w| ensures w[j] != '.' {
      if j < |head| {
        assert w[j] == head[j];
      } else {
        assert w[j] == tail[j - |head|];
      }
    }
    if d >= 0 {
      assert w[d] == head[d];
      LastDotAt(w, d);
    } else {
      LastDotNone(w);
    }
  }

  /** Two uploads of the same file at different instants are stored under different names. */
  lemma {:induction false} StoredNamesDifferInTime(originalName: string, t1: nat, t2: nat)
    requires t1 != t2
    ensures StoredName(originalName, t1) != StoredName(originalName, t2)
  {
    var s, e := Stem(originalName), ExtName(originalName);
    var d1, d2 := "-" + NatToString(t1), "-" + NatToString(t2);
    if StoredName(originalName, t1) == StoredName(originalName, t2) {
      var w1, w2 := s + d1 + e, s + d2 + e;
      assert w1 == StoredName(originalName, t1) && w2 == StoredName(originalName, t2);
      assert |d1| == |d2|;
      assert d1 == w1[|s|..|w1| - |e|];
      assert d2 == w2[|s|..|w2| - |e|];
      assert NatToString(t1) == d1[1..] && NatToString(t2) == d2[1..];
      NatToStringInjective(t1, t2);
    }
  }
}

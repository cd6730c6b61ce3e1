/** Custom templates in files: catalog/template.go, with the reading of catalog/kubernetes_service_blueprint.go. */
module Templates {
  import opened Text
  import opened Decimal
  import Blueprint

  // ---------------------------------------------------------------- directories

  datatype File = File(name: string, text: string)

  /** Names in byte order. */
  predicate Before(a: string, b: string) {
    if b == "" then false
    else if a == "" then true
    else a[0] < b[0] || (a[0] == b[0] && Before(a[1..], b[1..]))
  }

  lemma {:induction false} BeforeTrans(a: string, b: string, c: string)
    requires Before(a, b) && Before(b, c)
    ensures Before(a, c)
  {
    if a != "" && a[0] == b[0] == c[0] {
      BeforeTrans(a[1..], b[1..], c[1..]);
    }
  }

  lemma {:induction false} BeforeTotal(a: string, b: string)
    ensures !(Before(a, b) && Before(b, a)) && !Before(a, a)
    ensures a != b ==> Before(a, b) || Before(b, a)
  {
    if a != "" && b != "" && a[0] == b[0] {
      BeforeTotal(a[1..], b[1..]);
      assert a == [a[0]] + a[1..] && b == [b[0]] + b[1..];
    }
    if a != "" {
      BeforeTotal(a[1..], a[1..]);
    }
  }

  /** A directory is its listing, in the order of the names. */
  predicate Sorted(dir: seq<File>) {
    forall i, j :: 0 <= i < j < |dir| ==> Before(dir[i].name, dir[j].name)
  }

  /** Writing a file: a new one takes its place in the order, an old one is overwritten. */
  function Write(dir: seq<File>, f: File): seq<File> {
    if dir == [] then [f]
    else if dir[0].name == f.name then [f] + dir[1..]
    else if Before(f.name, dir[0].name) then [f] + dir
    else [dir[0]] + Write(dir[1..], f)
  }

  function WriteAll(dir: seq<File>, fs: seq<File>): seq<File> {
    if fs == [] then dir else Write(WriteAll(dir, fs[..|fs|-1]), fs[|fs|-1])
  }

  predicate EndsWith(s: string, suffix: string) {
    |suffix| <= |s| && s[|s|-|suffix|..] == suffix
  }

  predicate Selected(name: string, prefix: string, suffix: string) {
    prefix <= name && EndsWith(name, suffix)
  }

  /** The texts of the files with a prefix and a suffix, in the order of their names. */
  function Read(dir: seq<File>, prefix: string, suffix: string): seq<string> {
    if dir == [] then []
    else (if Selected(dir[0].name, prefix, suffix) then [dir[0].text] else []) + Read(dir[1..], prefix, suffix)
  }

  lemma {:induction false} WriteSorts(dir: seq<File>, f: File)
    requires Sorted(dir)
    ensures Sorted(Write(dir, f))
    ensures forall g :: g in Write(dir, f) ==> g == f || g in dir
  {
    if dir != [] {
      var d, rest := dir[0], dir[1..];
      BeforeTotal(f.name, d.name);
      if d.name != f.name && !Before(f.name, d.name) {
        WriteSorts(rest, f);
        forall g | g in Write(rest, f) ensures Before(d.name, g.name) {
          if g != f {
            var i :| 0 <= i < |rest| && rest[i] == g;
            assert dir[i+1] == g;
          }
        }
      } else if d.name != f.name {
        forall i | 0 <= i < |dir| ensures Before(f.name, dir[i].name) {
          if i > 0 { BeforeTrans(f.name, d.name, dir[i].name); }
        }
      }
    }
  }

  /** A file that is not selected does not change what is read. */
  lemma {:induction false} WriteElse(dir: seq<File>, f: File, prefix: string, suffix: string)
    requires !Selected(f.name, prefix, suffix)
    ensures Read(Write(dir, f), prefix, suffix) == Read(dir, prefix, suffix)
  {
    if dir != [] && dir[0].name != f.name && !Before(f.name, dir[0].name) {
      WriteElse(dir[1..], f, prefix, suffix);
    }
  }

  /** A new selected file adds its text to what is read. */
  lemma {:induction false} WriteNew(dir: seq<File>, f: File, prefix: string, suffix: string)
    requires Selected(f.name, prefix, suffix) && forall g :: g in dir ==> g.name != f.name
    ensures multiset(Read(Write(dir, f), prefix, suffix)) == multiset(Read(dir, prefix, suffix)) + multiset{f.text}
  {
    if dir != [] && !Before(f.name, dir[0].name) {
      WriteNew(dir[1..], f, prefix, suffix);
    }
  }

  /** A new selected file whose name follows those of the other selected ones is read last. */
  lemma {:induction false} WriteLast(dir: seq<File>, f: File, prefix: string, suffix: string)
    requires Selected(f.name, prefix, suffix)
    requires forall g :: g in dir && Selected(g.name, prefix, suffix) ==> Before(g.name, f.name)
    requires Sorted(dir) && forall g :: g in dir ==> g.name != f.name
    ensures Read(Write(dir, f), prefix, suffix) == Read(dir, prefix, suffix) + [f.text]
  {
    if dir != [] {
      if Before(f.name, dir[0].name) {
        NothingSelected(dir, f, prefix, suffix);
      } else {
        WriteLast(dir[1..], f, prefix, suffix);
      }
    }
  }

  lemma {:induction false} NothingSelected(dir: seq<File>, f: File, prefix: string, suffix: string)
    requires forall g :: g in dir && Selected(g.name, prefix, suffix) ==> Before(g.name, f.name)
    requires Sorted(dir) && (dir != [] ==> Before(f.name, dir[0].name))
    ensures Read(dir, prefix, suffix) == []
  {
    if dir != [] {
      BeforeTotal(f.name, dir[0].name);
      if |dir| > 1 {
        BeforeTrans(f.name, dir[0].name, dir[1].name);
      }
      NothingSelected(dir[1..], f, prefix, suffix);
    }
  }

  /** The files whose names are not among these. */
  function Except(dir: seq<File>, names: set<string>): (r: seq<File>)
    ensures forall g :: g in r <==> g in dir && g.name !in names
  {
    if dir == [] then []
    else
      var rest := Except(dir[1..], names);
      assert dir == [dir[0]] + dir[1..];
      if dir[0].name in names then rest else [dir[0]] + rest
  }

  lemma {:induction false} ExceptSorted(dir: seq<File>, names: set<string>)
    requires Sorted(dir)
    ensures Sorted(Except(dir, names))
  {
    if dir != [] {
      ExceptSorted(dir[1..], names);
      FirstIsBefore(dir);
    }
  }

  lemma FirstIsBefore(dir: seq<File>)
    requires dir != [] && Sorted(dir)
    ensures forall g :: g in dir[1..] ==> Before(dir[0].name, g.name)
  {
    forall g | g in dir[1..] ensures Before(dir[0].name, g.name) {
      var i :| 0 <= i < |dir| - 1 && dir[1..][i] == g;
      assert dir[i+1] == g;
    }
  }

  lemma WriteFirst(dir: seq<File>, f: File)
    requires forall g :: g in dir ==> Before(f.name, g.name)
    ensures Write(dir, f) == [f] + dir
  {
    if dir != [] {
      BeforeTotal(f.name, dir[0].name);
    }
  }

  lemma {:induction false} ExceptNothing(dir: seq<File>, names: set<string>)
    requires forall g :: g in dir ==> g.name !in names
    ensures Except(dir, names) == dir
  {
    if dir != [] {
      ExceptNothing(dir[1..], names);
    }
  }

  lemma {:induction false} ExceptTwice(dir: seq<File>, a: set<string>, b: set<string>)
    ensures Except(Except(dir, a), b) == Except(dir, a + b)
  {
    if dir != [] {
      ExceptTwice(dir[1..], a, b);
      if dir[0].name !in a {
        assert Except(dir, a)[1..] == Except(dir[1..], a);
      }
    }
  }

  /** Leaving out names commutes with writing a file of another name. */
  lemma {:induction false} WriteExcept(dir: seq<File>, f: File, names: set<string>)
    requires Sorted(dir) && f.name !in names
    ensures Except(Write(dir, f), names) == Write(Except(dir, names), f)
  {
    if dir != [] {
      var d, rest := dir[0], dir[1..];
      FirstIsBefore(dir);
      BeforeTotal(f.name, d.name);
      if d.name == f.name {
        assert ([f] + rest)[1..] == rest && ([d] + Except(rest, names))[1..] == Except(rest, names);
      } else if Before(f.name, d.name) {
        forall g | g in dir ensures Before(f.name, g.name) {
          if g != d { assert g in rest; BeforeTrans(f.name, d.name, g.name); }
        }
        WriteFirst(Except(dir, names), f);
        assert ([f] + dir)[1..] == dir;
      } else {
        WriteExcept(rest, f, names);
        assert ([d] + Write(rest, f))[1..] == Write(rest, f);
        assert ([d] + Except(rest, names))[1..] == Except(rest, names);
      }
    }
  }

  /** Overwriting a file is writing it where it is left out. */
  lemma {:induction false} WriteOver(dir: seq<File>, f: File)
    requires Sorted(dir)
    ensures Write(dir, f) == Write(Except(dir, {f.name}), f)
  {
    if dir != [] {
      var d, rest := dir[0], dir[1..];
      FirstIsBefore(dir);
      BeforeTotal(f.name, d.name);
      if d.name == f.name {
        forall g | g in rest ensures g.name !in {f.name} { BeforeTotal(d.name, g.name); }
        ExceptNothing(rest, {f.name});
        WriteFirst(rest, f);
      } else if Before(f.name, d.name) {
        forall g | g in dir ensures g.name !in {f.name} {
          if g != d { assert g in rest; BeforeTrans(f.name, d.name, g.name); }
          BeforeTotal(f.name, g.name);
        }
        ExceptNothing(dir, {f.name});
      } else {
        WriteOver(rest, f);
        assert ([d] + Except(rest, {f.name}))[1..] == Except(rest, {f.name});
      }
    }
  }

  lemma {:induction false} WriteAdds(dir: seq<File>, f: File)
    requires forall g :: g in dir ==> g.name != f.name
    ensures forall g :: g in Write(dir, f) <==> g == f || g in dir
  {
    if dir != [] {
      assert dir == [dir[0]] + dir[1..];
      if !Before(f.name, dir[0].name) {
        WriteAdds(dir[1..], f);
      }
    }
  }

  /** The file is there, and of the others those that have another name. */
  lemma WriteMeaning(dir: seq<File>, f: File)
    requires Sorted(dir)
    ensures forall g :: g in Write(dir, f) <==> g == f || (g in dir && g.name != f.name)
  {
    WriteOver(dir, f);
    WriteAdds(Except(dir, {f.name}), f);
  }

  /** The files in order, and of these the texts of those whose name begins and ends so. */
  lemma ReadMeaning(a: seq<File>, b: seq<File>, f: File, prefix: string, suffix: string)
    ensures Read(a + b, prefix, suffix) == Read(a, prefix, suffix) + Read(b, prefix, suffix)
    ensures var m, n := |prefix|, |f.name|;
            Read([f], prefix, suffix) ==
            if m <= n && f.name[..m] == prefix && |suffix| <= n && f.name[n-|suffix|..] == suffix then [f.text] else []
  {
    ReadConcat(a, b, prefix, suffix);
    ReadFirst(f, [], prefix, suffix);
    assert [f] + [] == [f];
  }

  lemma ReadFirst(f: File, rest: seq<File>, prefix: string, suffix: string)
    ensures Read([f] + rest, prefix, suffix) ==
            (if Selected(f.name, prefix, suffix) then [f.text] else []) + Read(rest, prefix, suffix)
  {
    assert ([f] + rest)[1..] == rest;
  }

  lemma AppendAssoc<T>(a: seq<T>, b: seq<T>, c: seq<T>)
    ensures a + (b + c) == (a + b) + c
  {
  }

  lemma {:induction false} ReadConcat(a: seq<File>, b: seq<File>, prefix: string, suffix: string)
    ensures Read(a + b, prefix, suffix) == Read(a, prefix, suffix) + Read(b, prefix, suffix)
  {
    if a == [] {
      assert a + b == b;
    } else {
      ReadConcat(a[1..], b, prefix, suffix);
      assert a + b == [a[0]] + (a[1..] + b) && a == [a[0]] + a[1..];
      ReadFirst(a[0], a[1..] + b, prefix, suffix);
      ReadFirst(a[0], a[1..], prefix, suffix);
      AppendAssoc(if Selected(a[0].name, prefix, suffix) then [a[0].text] else [], Read(a[1..], prefix, suffix),
                  Read(b, prefix, suffix));
    }
  }

  // ---------------------------------------------------------------- the files of a template

  const CLAIM := "persistentvolumeclaim"
  const DEPLOYMENT := "deployment"
  const SERVICE := "service"
  const ACCOUNT := "account"
  const SECRET := "secret"
  const JOB := "job"
  const STATEFUL_SET := "statefulset"
  const JSON := ".json"

  /** The first and the third letter tell the kinds apart. */
  function Code(k: string): (char, char) {
    if |k| > 2 then (k[0], k[2]) else (' ', ' ')
  }

  lemma Codes()
    ensures Code(CLAIM) == ('p', 'r') && Code(DEPLOYMENT) == ('d', 'p') && Code(SERVICE) == ('s', 'r')
    ensures Code(ACCOUNT) == ('a', 'c') && Code(SECRET) == ('s', 'c') && Code(JOB) == ('j', 'b') &&
            Code(STATEFUL_SET) == ('s', 'a')
    ensures |CLAIM| > 2 && |DEPLOYMENT| > 2 && |SERVICE| > 2 && |ACCOUNT| > 2 && |SECRET| > 2 && |JOB| > 2 &&
            |STATEFUL_SET| > 2
  {
  }

  function FileName(kind: string, i: nat): string {
    kind + ("_" + (Itoa(i) + JSON))
  }

  /** The files of one kind, numbered in order. */
  function Files(kind: string, texts: seq<string>): (fs: seq<File>)
    ensures |fs| == |texts| && forall i :: 0 <= i < |texts| ==> fs[i] == File(FileName(kind, i), texts[i])
  {
    seq(|texts|, i requires 0 <= i < |texts| => File(FileName(kind, i), texts[i]))
  }

  lemma NameSelected(kind: string, i: nat)
    ensures Selected(FileName(kind, i), kind, JSON) && kind <= FileName(kind, i)
  {
    var name := FileName(kind, i);
    assert name[|name|-|JSON|..] == JSON;
  }

  lemma NameElse(kind: string, i: nat, other: string, suffix: string)
    requires |kind| > 2 && |other| > 2 && Code(kind) != Code(other)
    ensures !Selected(FileName(kind, i), other, suffix)
  {
    var name := FileName(kind, i);
    assert name[0] == kind[0] && name[2] == kind[2];
  }

  lemma NamesDiffer(kind: string, i: nat, j: nat)
    requires FileName(kind, i) == FileName(kind, j)
    ensures i == j
  {
    var a, b := FileName(kind, i), FileName(kind, j);
    assert a[|kind|..] == "_" + (Itoa(i) + JSON) && b[|kind|..] == "_" + (Itoa(j) + JSON);
    assert a[|kind|..][1..] == Itoa(i) + JSON && b[|kind|..][1..] == Itoa(j) + JSON;
    var x, y := Itoa(i) + JSON, Itoa(j) + JSON;
    assert x[..|x|-|JSON|] == Itoa(i) && y[..|y|-|JSON|] == Itoa(j);
    ItoaInjective(i, j);
  }

  lemma {:induction false} WriteAllNames(dir: seq<File>, fs: seq<File>)
    requires Sorted(dir)
    ensures Sorted(WriteAll(dir, fs)) && forall g :: g in WriteAll(dir, fs) ==> g in dir || g in fs
  {
    if fs != [] {
      WriteAllNames(dir, fs[..|fs|-1]);
      WriteSorts(WriteAll(dir, fs[..|fs|-1]), fs[|fs|-1]);
    }
  }

  lemma {:induction false} WriteAllConcat(dir: seq<File>, a: seq<File>, b: seq<File>)
    ensures WriteAll(dir, a + b) == WriteAll(WriteAll(dir, a), b)
  {
    if b == [] {
      assert a + b == a;
    } else {
      assert (a + b)[..|a + b|-1] == a + b[..|b|-1];
      WriteAllConcat(dir, a, b[..|b|-1]);
    }
  }

  lemma WriteFilesSnoc(dir: seq<File>, kind: string, texts: seq<string>, n: nat)
    requires n < |texts|
    ensures WriteAll(dir, Files(kind, texts)[..n+1]) ==
            Write(WriteAll(dir, Files(kind, texts)[..n]), File(FileName(kind, n), texts[n]))
  {
    assert Files(kind, texts)[..n+1][..n] == Files(kind, texts)[..n];
  }

  lemma MultisetSnoc(texts: seq<string>, n: nat)
    requires n < |texts|
    ensures multiset(texts[..n+1]) == multiset(texts[..n]) + multiset{texts[n]}
  {
    assert texts[..n+1] == texts[..n] + [texts[n]];
  }

  /** Files of another kind do not change what is read of a kind. */
  lemma {:induction false} OtherKind(dir: seq<File>, kind: string, texts: seq<string>, n: nat, other: string,
                                     suffix: string)
    requires n <= |texts| && |kind| > 2 && |other| > 2 && Code(kind) != Code(other)
    ensures Read(WriteAll(dir, Files(kind, texts)[..n]), other, suffix) == Read(dir, other, suffix)
  {
    if n > 0 {
      OtherKind(dir, kind, texts, n - 1, other, suffix);
      WriteFilesSnoc(dir, kind, texts, n - 1);
      NameElse(kind, n - 1, other, suffix);
      WriteElse(WriteAll(dir, Files(kind, texts)[..n-1]), File(FileName(kind, n - 1), texts[n-1]), other, suffix);
    }
  }

  function FileNames(kind: string, n: nat): (names: set<string>)
    ensures forall name :: name in names <==> exists i :: 0 <= i < n && name == FileName(kind, i)
  {
    set i | 0 <= i < n :: FileName(kind, i)
  }

  /** The directory has none of the first `n` names of the kind. */
  predicate Unwritten(dir: seq<File>, kind: string, n: nat) {
    forall g :: g in dir ==> g.name !in FileNames(kind, n)
  }

  /** Where none of the names is taken, the first `n` files of a kind are read back beside what was there. */
  lemma {:induction false} OwnKind(dir: seq<File>, kind: string, texts: seq<string>, n: nat)
    requires n <= |texts| && Sorted(dir) && Unwritten(dir, kind, |texts|)
    ensures multiset(Read(WriteAll(dir, Files(kind, texts)[..n]), kind, JSON)) ==
            multiset(Read(dir, kind, JSON)) + multiset(texts[..n])
  {
    if n > 0 {
      OwnKind(dir, kind, texts, n - 1);
      OwnFile(dir, kind, texts, n - 1);
      MultisetSnoc(texts, n - 1);
    }
  }

  lemma OwnFile(dir: seq<File>, kind: string, texts: seq<string>, n: nat)
    requires n < |texts| && Sorted(dir) && Unwritten(dir, kind, |texts|)
    ensures multiset(Read(WriteAll(dir, Files(kind, texts)[..n+1]), kind, JSON)) ==
            multiset(Read(WriteAll(dir, Files(kind, texts)[..n]), kind, JSON)) + multiset{texts[n]}
  {
    WriteFilesSnoc(dir, kind, texts, n);
    NewName(dir, kind, texts, n);
    NameSelected(kind, n);
    WriteNew(WriteAll(dir, Files(kind, texts)[..n]), File(FileName(kind, n), texts[n]), kind, JSON);
  }

  lemma {:induction false} NoneRead(dir: seq<File>, prefix: string, suffix: string)
    requires forall g :: g in dir ==> !Selected(g.name, prefix, suffix)
    ensures Read(dir, prefix, suffix) == []
  {
    if dir != [] {
      NoneRead(dir[1..], prefix, suffix);
    }
  }

  /** Each file of a kind has a name of its own. */
  lemma NewName(dir: seq<File>, kind: string, texts: seq<string>, n: nat)
    requires n < |texts| && Sorted(dir) && Unwritten(dir, kind, |texts|)
    ensures Sorted(WriteAll(dir, Files(kind, texts)[..n]))
    ensures forall g :: g in WriteAll(dir, Files(kind, texts)[..n]) ==> g.name != FileName(kind, n)
  {
    var fs := Files(kind, texts)[..n];
    WriteAllNames(dir, fs);
    forall g | g in WriteAll(dir, fs) ensures g.name != FileName(kind, n) {
      if g in dir {
        assert FileName(kind, n) in FileNames(kind, |texts|);
      } else {
        var i :| 0 <= i < n && fs[i] == g;
        if g.name == FileName(kind, n) {
          NamesDiffer(kind, i, n);
        }
      }
    }
  }

  /** What is read of a kind besides the first `n` names. */
  function Leftover(dir: seq<File>, kind: string, n: nat): seq<string> {
    Read(Except(dir, FileNames(kind, n)), kind, JSON)
  }

  /** Every file that is read for the kind has one of the first `n` names. */
  predicate Covered(dir: seq<File>, kind: string, n: nat) {
    forall g :: g in dir && Selected(g.name, kind, JSON) ==> g.name in FileNames(kind, n)
  }

  lemma {:induction false} ReadsSelected(dir: seq<File>, prefix: string, suffix: string)
    ensures Read(dir, prefix, suffix) == [] <==> forall g :: g in dir ==> !Selected(g.name, prefix, suffix)
  {
    if dir != [] {
      ReadsSelected(dir[1..], prefix, suffix);
      assert dir == [dir[0]] + dir[1..];
    }
  }

  lemma LeftoverIff(dir: seq<File>, kind: string, n: nat)
    ensures Leftover(dir, kind, n) == [] <==> Covered(dir, kind, n)
  {
    ReadsSelected(Except(dir, FileNames(kind, n)), kind, JSON);
  }

  /** Leaving out names commutes with writing files of other names. */
  lemma {:induction false} WriteAllExcept(dir: seq<File>, fs: seq<File>, names: set<string>)
    requires Sorted(dir) && forall f :: f in fs ==> f.name !in names
    ensures Except(WriteAll(dir, fs), names) == WriteAll(Except(dir, names), fs)
  {
    if fs != [] {
      var init := fs[..|fs|-1];
      WriteAllExcept(dir, init, names);
      WriteAllNames(dir, init);
      WriteExcept(WriteAll(dir, init), fs[|fs|-1], names);
    }
  }

  /** Writing the files of a kind is writing them where their names are left out. */
  lemma {:induction false} WriteFresh(dir: seq<File>, kind: string, texts: seq<string>, n: nat)
    requires n <= |texts| && Sorted(dir)
    ensures WriteAll(dir, Files(kind, texts)[..n]) == WriteAll(Except(dir, FileNames(kind, n)), Files(kind, texts)[..n])
  {
    if n == 0 {
      ExceptNothing(dir, FileNames(kind, 0));
    } else {
      WriteFresh(dir, kind, texts, n - 1);
      WriteFreshStep(dir, kind, texts, n - 1);
    }
  }

  lemma WriteFreshStep(dir: seq<File>, kind: string, texts: seq<string>, n: nat)
    requires n < |texts| && Sorted(dir)
    requires WriteAll(dir, Files(kind, texts)[..n]) ==
             WriteAll(Except(dir, FileNames(kind, n)), Files(kind, texts)[..n])
    ensures WriteAll(dir, Files(kind, texts)[..n+1]) ==
            WriteAll(Except(dir, FileNames(kind, n + 1)), Files(kind, texts)[..n+1])
  {
    var fs, f := Files(kind, texts)[..n], File(FileName(kind, n), texts[n]);
    var a, b := Except(dir, FileNames(kind, n)), Except(dir, FileNames(kind, n + 1));
    WriteFilesSnoc(dir, kind, texts, n);
    WriteFilesSnoc(b, kind, texts, n);
    ExceptSorted(dir, FileNames(kind, n));
    ExceptSorted(dir, FileNames(kind, n + 1));
    WriteAllNames(a, fs);
    WriteAllNames(b, fs);
    WriteOver(WriteAll(a, fs), f);
    WriteOver(WriteAll(b, fs), f);
    forall g | g in fs ensures g.name !in {f.name} {
      var i :| 0 <= i < n && fs[i] == g;
      if g.name == f.name { NamesDiffer(kind, i, n); }
    }
    WriteAllExcept(a, fs, {f.name});
    WriteAllExcept(b, fs, {f.name});
    ExceptTwice(dir, FileNames(kind, n), {f.name});
    ExceptTwice(dir, FileNames(kind, n + 1), {f.name});
    OneMoreName(kind, n);
  }

  lemma OneMoreName(kind: string, n: nat)
    ensures FileNames(kind, n) + {FileName(kind, n)} == FileNames(kind, n + 1)
    ensures FileNames(kind, n + 1) + {FileName(kind, n)} == FileNames(kind, n + 1)
  {
    forall name ensures name in FileNames(kind, n + 1) <==> name in FileNames(kind, n) || name == FileName(kind, n) {
      if name in FileNames(kind, n) {
        var i :| 0 <= i < n && name == FileName(kind, i);
        assert 0 <= i < n + 1;
      }
    }
  }

  /** In any directory: what is read of a kind after its files were written is the texts and what was left over. */
  lemma OwnKindAnywhere(dir: seq<File>, kind: string, texts: seq<string>)
    requires Sorted(dir)
    ensures multiset(Read(WriteAll(dir, Files(kind, texts)), kind, JSON)) ==
            multiset(texts) + multiset(Leftover(dir, kind, |texts|))
  {
    var rest := Except(dir, FileNames(kind, |texts|));
    assert Files(kind, texts)[..|texts|] == Files(kind, texts) && texts[..|texts|] == texts;
    WriteFresh(dir, kind, texts, |texts|);
    ExceptSorted(dir, FileNames(kind, |texts|));
    OwnKind(rest, kind, texts, |texts|);
  }

  // ---------------------------------------------------------------- the order

  lemma {:induction false} BeforeAfterHead(h: string, a: string, b: string)
    ensures Before(h + a, h + b) <==> Before(a, b)
  {
    if h == "" {
      assert h + a == a && h + b == b;
    } else {
      assert (h + a)[1..] == h[1..] + a && (h + b)[1..] == h[1..] + b;
      BeforeAfterHead(h[1..], a, b);
    }
  }

  /** Numbers of one digit are in order. */
  lemma DigitsInOrder(kind: string, i: nat, j: nat)
    requires i < j < 10
    ensures Before(FileName(kind, i), FileName(kind, j))
  {
    var x, y := Itoa(i) + JSON, Itoa(j) + JSON;
    assert x[0] == DigitChar(i) && y[0] == DigitChar(j);
    BeforeAfterHead("_", x, y);
    BeforeAfterHead(kind, "_" + x, "_" + y);
  }

  /** But 10 comes before 2. */
  lemma TenBeforeTwo(kind: string)
    ensures Before(FileName(kind, 10), FileName(kind, 2))
  {
    var x, y := Itoa(10) + JSON, Itoa(2) + JSON;
    assert Itoa(1) == ['1'] && Itoa(10) == Itoa(1) + ['0'];
    assert x[0] == '1' && y[0] == '2';
    BeforeAfterHead("_", x, y);
    BeforeAfterHead(kind, "_" + x, "_" + y);
  }

  lemma NoneIsUnwritten(dir: seq<File>, kind: string, n: nat)
    requires forall g :: g in dir ==> !Selected(g.name, kind, JSON)
    ensures Unwritten(dir, kind, n)
  {
    forall g | g in dir ensures g.name !in FileNames(kind, n) {
      if g.name in FileNames(kind, n) {
        var i :| 0 <= i < n && g.name == FileName(kind, i);
        NameSelected(kind, i);
      }
    }
  }

  lemma EarlierNames(dir: seq<File>, kind: string, texts: seq<string>, n: nat)
    requires n < |texts| && n < 10 && Sorted(dir) && forall g :: g in dir ==> !Selected(g.name, kind, JSON)
    ensures forall g :: g in WriteAll(dir, Files(kind, texts)[..n]) && Selected(g.name, kind, JSON) ==>
              Before(g.name, FileName(kind, n))
  {
    var fs := Files(kind, texts)[..n];
    WriteAllNames(dir, fs);
    forall g | g in WriteAll(dir, fs) && Selected(g.name, kind, JSON) ensures Before(g.name, FileName(kind, n)) {
      var i :| 0 <= i < n && fs[i] == g;
      DigitsInOrder(kind, i, n);
    }
  }

  lemma TakeSnoc(texts: seq<string>, n: nat)
    requires n < |texts|
    ensures texts[..n+1] == texts[..n] + [texts[n]]
  {
  }

  lemma {:induction false} FewInOrder(dir: seq<File>, kind: string, texts: seq<string>, n: nat)
    requires n <= |texts| && n <= 10 && Sorted(dir) && forall g :: g in dir ==> !Selected(g.name, kind, JSON)
    ensures Read(WriteAll(dir, Files(kind, texts)[..n]), kind, JSON) == texts[..n]
  {
    if n == 0 {
      NoneRead(dir, kind, JSON);
    } else {
      FewInOrder(dir, kind, texts, n - 1);
      var before, name := WriteAll(dir, Files(kind, texts)[..n-1]), FileName(kind, n - 1);
      WriteFilesSnoc(dir, kind, texts, n - 1);
      NoneIsUnwritten(dir, kind, |texts|);
      NewName(dir, kind, texts, n - 1);
      NameSelected(kind, n - 1);
      EarlierNames(dir, kind, texts, n - 1);
      WriteLast(before, File(name, texts[n-1]), kind, JSON);
      TakeSnoc(texts, n - 1);
    }
  }

  lemma {:induction false} ReadFrom(dir: seq<File>, prefix: string, suffix: string)
    ensures forall t :: t in Read(dir, prefix, suffix) ==> exists g :: g in dir && g.text == t
  {
    if dir != [] {
      ReadFrom(dir[1..], prefix, suffix);
      forall t | t in Read(dir[1..], prefix, suffix) ensures exists g :: g in dir && g.text == t {
        var g :| g in dir[1..] && g.text == t;
        assert g in dir;
      }
    }
  }

  predicate Ascending(names: seq<string>) {
    forall i, j {:trigger names[i], names[j]} :: 0 <= i < j < |names| ==> Before(names[i], names[j])
  }

  lemma AscendingCons(name: string, names: seq<string>)
    requires Ascending(names) && forall t :: t in names ==> Before(name, t)
    ensures Ascending([name] + names)
  {
    var all := [name] + names;
    forall i, j | 0 <= i < j < |all| ensures Before(all[i], all[j]) {
      assert all[j] == names[j-1] && names[j-1] in names;
    }
  }

  /** Files that hold their own names are read in the order of the names. */
  lemma {:induction false} NamesReadInOrder(dir: seq<File>, prefix: string, suffix: string)
    requires Sorted(dir) && forall g :: g in dir ==> g.text == g.name
    ensures Ascending(Read(dir, prefix, suffix))
  {
    if dir != [] {
      var rest := dir[1..];
      NamesReadInOrder(rest, prefix, suffix);
      ReadFrom(rest, prefix, suffix);
      forall t | t in Read(rest, prefix, suffix) ensures Before(dir[0].text, t) {
        var g :| g in rest && g.text == t;
        var k :| 0 <= k < |rest| && rest[k] == g;
        assert dir[k+1] == g;
      }
      AscendingCons(dir[0].text, Read(rest, prefix, suffix));
    }
  }

  /** What is read of a kind after its texts were written to a new directory. */
  function ReadBack(kind: string, texts: seq<string>): seq<string> {
    Read(WriteAll([], Files(kind, texts)), kind, JSON)
  }

  ghost predicate KeepsOrder(kind: string, n: nat) {
    forall texts: seq<string> :: |texts| == n ==> ReadBack(kind, texts) == texts
  }

  function Names(kind: string, n: nat): (names: seq<string>)
    ensures |names| == n && forall i :: 0 <= i < n ==> names[i] == FileName(kind, i)
  {
    seq(n, i requires 0 <= i < n => FileName(kind, i))
  }

  lemma ManyOutOfOrder(kind: string, n: nat)
    requires n > 10
    ensures ReadBack(kind, Names(kind, n)) != Names(kind, n)
  {
    var names := Names(kind, n);
    var dir := WriteAll([], Files(kind, names));
    WriteAllNames([], Files(kind, names));
    forall g | g in dir ensures g.text == g.name {
      assert g in Files(kind, names);
    }
    NamesReadInOrder(dir, kind, JSON);
    TenBeforeTwo(kind);
    BeforeTotal(names[10], names[2]);
    var r := Read(dir, kind, JSON);
    assert |r| == n ==> Before(r[2], r[10]);
  }

  /** The texts of a kind are read back in the order in which they were given exactly when there are at most ten. */
  lemma KeepsOrderIff(kind: string, n: nat)
    ensures KeepsOrder(kind, n) <==> n <= 10
  {
    if n <= 10 {
      forall texts: seq<string> | |texts| == n ensures ReadBack(kind, texts) == texts {
        FewInOrder([], kind, texts, n);
        assert texts[..n] == texts && Files(kind, texts)[..n] == Files(kind, texts);
      }
    } else {
      ManyOutOfOrder(kind, n);
    }
  }

  // ---------------------------------------------------------------- a whole template

  /** The JSON texts of a template's objects and job hooks; stateful sets are never written. */
  datatype Body = Body(claims: seq<string>, deployments: seq<string>, services: seq<string>, accounts: seq<string>,
                       secrets: seq<string>, jobs: seq<string>)

  function KindsOf(b: Body): (ks: seq<(string, seq<string>)>)
    ensures |ks| == 6
  {
    [(CLAIM, b.claims), (DEPLOYMENT, b.deployments), (SERVICE, b.services), (ACCOUNT, b.accounts), (SECRET, b.secrets),
     (JOB, b.jobs)]
  }

  function FilesOf(ks: seq<(string, seq<string>)>): seq<File> {
    if ks == [] then [] else FilesOf(ks[..|ks|-1]) + Files(ks[|ks|-1].0, ks[|ks|-1].1)
  }

  /** One file per text, numbered from 0. */
  function Numbered(head: string, texts: seq<string>): seq<File> {
    seq(|texts|, i requires 0 <= i < |texts| => File(head + (Itoa(i) + ".json"), texts[i]))
  }

  /** The files of a body, kind by kind. */
  lemma FilesMeaning(b: Body)
    ensures FilesOf(KindsOf(b)) ==
            Numbered("persistentvolumeclaim_", b.claims) + Numbered("deployment_", b.deployments) +
            Numbered("service_", b.services) + Numbered("account_", b.accounts) + Numbered("secret_", b.secrets) +
            Numbered("job_", b.jobs)
  {
    NumberedFiles(CLAIM, "persistentvolumeclaim_", b.claims);
    NumberedFiles(DEPLOYMENT, "deployment_", b.deployments);
    NumberedFiles(SERVICE, "service_", b.services);
    NumberedFiles(ACCOUNT, "account_", b.accounts);
    NumberedFiles(SECRET, "secret_", b.secrets);
    NumberedFiles(JOB, "job_", b.jobs);
    FilesOfSix(KindsOf(b));
  }

  lemma NumberedFiles(kind: string, head: string, texts: seq<string>)
    requires kind + "_" == head
    ensures Files(kind, texts) == Numbered(head, texts)
  {
    forall i | 0 <= i < |texts| ensures Files(kind, texts)[i] == Numbered(head, texts)[i] {
      assert kind + ("_" + (Itoa(i) + JSON)) == head + (Itoa(i) + JSON);
    }
  }

  function FilesAt(ks: seq<(string, seq<string>)>, k: nat): seq<File>
    requires k < |ks|
  {
    Files(ks[k].0, ks[k].1)
  }

  lemma FilesOfTwo(ks: seq<(string, seq<string>)>, k: nat)
    requires k + 2 <= |ks|
    ensures FilesOf(ks[..k+2]) == FilesOf(ks[..k]) + FilesAt(ks, k) + FilesAt(ks, k + 1)
  {
    assert ks[..k+2][..k+1] == ks[..k+1] && ks[..k+1][..k] == ks[..k];
  }

  lemma FilesOfSix(ks: seq<(string, seq<string>)>)
    requires |ks| == 6
    ensures FilesOf(ks) ==
            FilesAt(ks, 0) + FilesAt(ks, 1) + FilesAt(ks, 2) + FilesAt(ks, 3) + FilesAt(ks, 4) + FilesAt(ks, 5)
  {
    FirstFiles(ks);
    FilesOfTwo(ks, 2);
    FilesOfTwo(ks, 4);
    WholeList(ks, 6);
  }

  lemma FirstFiles(ks: seq<(string, seq<string>)>)
    requires |ks| >= 2
    ensures FilesOf(ks[..2]) == FilesAt(ks, 0) + FilesAt(ks, 1)
  {
    FilesOfTwo(ks, 0);
    assert ks[..0] == [] && [] + FilesAt(ks, 0) == FilesAt(ks, 0);
  }

  lemma WholeList<T>(s: seq<T>, n: nat)
    requires n == |s|
    ensures s[..n] == s
  {
  }

  predicate Apart(ks: seq<(string, seq<string>)>, kind: string) {
    |kind| > 2 && forall i :: 0 <= i < |ks| ==> |ks[i].0| > 2 && Code(ks[i].0) != Code(kind)
  }

  lemma {:induction false} ReadsElse(dir: seq<File>, ks: seq<(string, seq<string>)>, kind: string, suffix: string)
    requires Apart(ks, kind)
    ensures Read(WriteAll(dir, FilesOf(ks)), kind, suffix) == Read(dir, kind, suffix)
  {
    if ks != [] {
      var init, k := ks[..|ks|-1], ks[|ks|-1];
      ReadsElse(dir, init, kind, suffix);
      WriteAllConcat(dir, FilesOf(init), Files(k.0, k.1));
      OtherKind(WriteAll(dir, FilesOf(init)), k.0, k.1, |k.1|, kind, suffix);
      assert Files(k.0, k.1)[..|k.1|] == Files(k.0, k.1);
    }
  }

  lemma {:induction false} FilesElse(ks: seq<(string, seq<string>)>, kind: string, n: nat)
    requires Apart(ks, kind)
    ensures forall g :: g in FilesOf(ks) ==> g.name !in FileNames(kind, n)
  {
    if ks != [] {
      var init, k := ks[..|ks|-1], ks[|ks|-1];
      FilesElse(init, kind, n);
      forall i | 0 <= i < |k.1| ensures FileName(k.0, i) !in FileNames(kind, n) {
        NameElse(k.0, i, kind, JSON);
        if FileName(k.0, i) in FileNames(kind, n) {
          var j :| 0 <= j < n && FileName(k.0, i) == FileName(kind, j);
          NameSelected(kind, j);
        }
      }
    }
  }

  /** The files of the other kinds do not touch what is left over of a kind. */
  lemma LeftoverElse(dir: seq<File>, ks: seq<(string, seq<string>)>, kind: string, n: nat)
    requires Sorted(dir) && Apart(ks, kind)
    ensures Leftover(WriteAll(dir, FilesOf(ks)), kind, n) == Leftover(dir, kind, n)
  {
    FilesElse(ks, kind, n);
    WriteAllExcept(dir, FilesOf(ks), FileNames(kind, n));
    ReadsElse(Except(dir, FileNames(kind, n)), ks, kind, JSON);
  }

  /**
   * Exactly what was given and what is left over, and in order when nothing is left over and ten or fewer are given.
   */
  predicate Back(r: seq<string>, given: seq<string>, left: seq<string>) {
    multiset(r) == multiset(given) + multiset(left) && (left == [] && |given| <= 10 ==> r == given)
  }

  lemma OwnKindBack(dir: seq<File>, kind: string, texts: seq<string>)
    requires Sorted(dir)
    ensures Back(Read(WriteAll(dir, Files(kind, texts)), kind, JSON), texts, Leftover(dir, kind, |texts|))
  {
    OwnKindAnywhere(dir, kind, texts);
    if Leftover(dir, kind, |texts|) == [] && |texts| <= 10 {
      var rest := Except(dir, FileNames(kind, |texts|));
      assert Files(kind, texts)[..|texts|] == Files(kind, texts) && texts[..|texts|] == texts;
      WriteFresh(dir, kind, texts, |texts|);
      ReadsSelected(rest, kind, JSON);
      ExceptSorted(dir, FileNames(kind, |texts|));
      FewInOrder(rest, kind, texts, |texts|);
    }
  }

  /** Every kind of a template is read back beside what was left over of it in the directory. */
  lemma {:induction false} ReadsKind(dir: seq<File>, ks: seq<(string, seq<string>)>, i: nat)
    requires Sorted(dir) && i < |ks| && |ks[i].0| > 2
    requires forall j :: 0 <= j < |ks| && j != i ==> |ks[j].0| > 2 && Code(ks[j].0) != Code(ks[i].0)
    ensures Back(Read(WriteAll(dir, FilesOf(ks)), ks[i].0, JSON), ks[i].1, Leftover(dir, ks[i].0, |ks[i].1|))
    decreases |ks|
  {
    var init, k := ks[..|ks|-1], ks[|ks|-1];
    var now := WriteAll(dir, FilesOf(init));
    WriteAllConcat(dir, FilesOf(init), Files(k.0, k.1));
    if i < |ks| - 1 {
      ReadsKind(dir, init, i);
      assert Files(k.0, k.1)[..|k.1|] == Files(k.0, k.1);
      OtherKind(now, k.0, k.1, |k.1|, ks[i].0, JSON);
    } else {
      WriteAllNames(dir, FilesOf(init));
      LeftoverElse(dir, init, k.0, |k.1|);
      OwnKindBack(now, k.0, k.1);
    }
  }

  /**
   * A directory is not cleared before an addition, as when an earlier one was interrupted. A kind is read back as it
   * was given exactly when every file that is read for it has the name of one that was written.
   */
  lemma ReadsBackIff(dir: seq<File>, ks: seq<(string, seq<string>)>, i: nat)
    requires Sorted(dir) && i < |ks| && |ks[i].0| > 2
    requires forall j :: 0 <= j < |ks| && j != i ==> |ks[j].0| > 2 && Code(ks[j].0) != Code(ks[i].0)
    ensures multiset(Read(WriteAll(dir, FilesOf(ks)), ks[i].0, JSON)) == multiset(ks[i].1) <==>
              Covered(dir, ks[i].0, |ks[i].1|)
  {
    ReadsKind(dir, ks, i);
    LeftoverIff(dir, ks[i].0, |ks[i].1|);
    NothingMore(multiset(ks[i].1), Leftover(dir, ks[i].0, |ks[i].1|));
  }

  lemma NothingMore(m: multiset<string>, left: seq<string>)
    ensures m == m + multiset(left) <==> left == []
  {
    assert |m + multiset(left)| == |m| + |left|;
  }

  lemma KindsApart(b: Body)
    ensures var ks := KindsOf(b);
            && (forall i :: 0 <= i < 6 ==> |ks[i].0| > 2)
            && (forall i, j :: 0 <= i < 6 && 0 <= j < 6 && i != j ==> Code(ks[i].0) != Code(ks[j].0))
            && Apart(ks, STATEFUL_SET)
  {
    Codes();
  }

  /** What `GetRawTemplate` reads, as JSON texts. */
  datatype Raw = Raw(claims: seq<string>, deployments: seq<string>, services: seq<string>, accounts: seq<string>,
                     secrets: seq<string>, jobs: seq<string>, statefulSets: seq<string>)

  function Encoded(texts: seq<string>): (r: seq<string>)
    ensures |r| == |texts| && forall i :: 0 <= i < |texts| ==> r[i] == Blueprint.EncodedText(texts[i])
  {
    if texts == [] then [] else Encoded(texts[..|texts|-1]) + [Blueprint.EncodedText(texts[|texts|-1])]
  }

  /** Without secrets of its own, a template takes those in the directory beside the templates, if there is one. */
  function SecretTexts(dir: seq<File>, shared: Option<seq<File>>): seq<string> {
    var own := Read(dir, SECRET, JSON);
    if own == [] && shared.Some? then Read(shared.value, SECRET, "") else own
  }

  function RawOf(dir: seq<File>, shared: Option<seq<File>>): Raw {
    Raw(Read(dir, CLAIM, JSON), Read(dir, DEPLOYMENT, JSON), Read(dir, SERVICE, JSON), Read(dir, ACCOUNT, JSON),
        Encoded(SecretTexts(dir, shared)), Read(dir, JOB, JSON), Read(dir, STATEFUL_SET, JSON))
  }

  lemma {:induction false} EncodedConcat(a: seq<string>, b: seq<string>)
    ensures Encoded(a + b) == Encoded(a) + Encoded(b)
  {
    if b == [] {
      assert a + b == a && Encoded(a) + [] == Encoded(a);
    } else {
      assert (a + b)[..|a + b|-1] == a + b[..|b|-1];
      EncodedConcat(a, b[..|b|-1]);
    }
  }

  lemma EncodedOne(t: string)
    ensures Encoded([t]) == [Blueprint.EncodedText(t)]
  {
    assert [t][..0] == [];
  }

  lemma MultisetSplit(a: seq<string>, x: string, b: seq<string>)
    ensures multiset(a + ([x] + b)) == multiset(a + b) + multiset{x}
  {
    assert multiset([x] + b) == multiset{x} + multiset(b);
  }

  lemma EncodedSplit(a: seq<string>, x: string, b: seq<string>)
    ensures Encoded(a + ([x] + b)) == Encoded(a) + ([Blueprint.EncodedText(x)] + Encoded(b))
    ensures Encoded(a + b) == Encoded(a) + Encoded(b)
  {
    EncodedConcat(a, [x] + b);
    EncodedConcat([x], b);
    EncodedConcat(a, b);
    EncodedOne(x);
  }

  lemma TakeOut(a: seq<string>, x: string, b: seq<string>)
    ensures multiset(a + ([x] + b)) == multiset(a + b) + multiset{x}
    ensures multiset(Encoded(a + ([x] + b))) == multiset(Encoded(a + b)) + multiset{Blueprint.EncodedText(x)}
  {
    MultisetSplit(a, x, b);
    EncodedSplit(a, x, b);
    MultisetSplit(Encoded(a), Blueprint.EncodedText(x), Encoded(b));
  }

  lemma Cancel(a: multiset<string>, b: multiset<string>, x: string)
    requires a + multiset{x} == b + multiset{x}
    ensures a == b
  {
    assert a == (a + multiset{x}) - multiset{x} && b == (b + multiset{x}) - multiset{x};
  }

  lemma SplitAt(s: seq<string>, x: string) returns (a: seq<string>, b: seq<string>)
    requires x in multiset(s)
    ensures s == a + ([x] + b)
  {
    var k :| 0 <= k < |s| && s[k] == x;
    a, b := s[..k], s[k+1..];
  }

  /** Encoding every text of a permutation gives a permutation. */
  lemma {:induction false} EncodedPermutes(r: seq<string>, s: seq<string>)
    requires multiset(r) == multiset(s)
    ensures multiset(Encoded(r)) == multiset(Encoded(s))
    decreases |r|
  {
    if r == [] {
      assert |multiset(s)| == 0;
    } else {
      var x := r[0];
      assert x in multiset(r);
      var a, b := SplitAt(r, x);
      var c, d := SplitAt(s, x);
      TakeOut(a, x, b);
      TakeOut(c, x, d);
      Cancel(multiset(a + b), multiset(c + d), x);
      assert |a + b| < |r|;
      EncodedPermutes(a + b, c + d);
    }
  }

  /** Texts without markers, such as the JSON of a secret, are read as they are. */
  lemma {:induction false} EncodedPlain(texts: seq<string>)
    requires forall t :: t in texts ==> Blueprint.FindMarks(t) == []
    ensures Encoded(texts) == texts
  {
    if texts != [] {
      EncodedPlain(texts[..|texts|-1]);
    }
  }

  lemma EncodedBack(r: seq<string>, given: seq<string>, left: seq<string>)
    requires Back(r, given, left)
    ensures Back(Encoded(r), Encoded(given), Encoded(left))
  {
    assert multiset(given + left) == multiset(given) + multiset(left);
    EncodedPermutes(r, given + left);
    EncodedConcat(given, left);
    assert multiset(Encoded(given) + Encoded(left)) == multiset(Encoded(given)) + multiset(Encoded(left));
  }

  /** What is read of a template, in terms of what was given and of the directory before it was written. */
  predicate GivenBack(raw: Raw, dir: seq<File>, b: Body, shared: Option<seq<File>>) {
    && Back(raw.claims, b.claims, Leftover(dir, CLAIM, |b.claims|))
    && Back(raw.deployments, b.deployments, Leftover(dir, DEPLOYMENT, |b.deployments|))
    && Back(raw.services, b.services, Leftover(dir, SERVICE, |b.services|))
    && Back(raw.accounts, b.accounts, Leftover(dir, ACCOUNT, |b.accounts|))
    && Back(raw.jobs, b.jobs, Leftover(dir, JOB, |b.jobs|))
    && raw.statefulSets == Read(dir, STATEFUL_SET, JSON)
    && (var left := Leftover(dir, SECRET, |b.secrets|);
        if b.secrets == [] && left == [] && shared.Some? then raw.secrets == Encoded(Read(shared.value, SECRET, ""))
        else Back(raw.secrets, Encoded(b.secrets), Encoded(left)))
  }

  /**
   * The round trip, into any directory: for each of the five stored kinds and the hooks what is read is what was given
   * and what was left over, and in the order given where nothing was left over and ten or fewer were given. In a new
   * directory nothing is left over, and there are no stateful sets.
   */
  lemma RoundTrip(dir: seq<File>, b: Body, shared: Option<seq<File>>)
    requires Sorted(dir)
    ensures GivenBack(RawOf(WriteAll(dir, FilesOf(KindsOf(b))), shared), dir, b, shared)
  {
    var ks, now := KindsOf(b), WriteAll(dir, FilesOf(KindsOf(b)));
    KindsApart(b);
    forall i | 0 <= i < 6 ensures Back(Read(now, ks[i].0, JSON), ks[i].1, Leftover(dir, ks[i].0, |ks[i].1|)) {
      ReadsKind(dir, ks, i);
    }
    ReadsElse(dir, ks, STATEFUL_SET, JSON);
    assert Back(Read(now, ks[0].0, JSON), ks[0].1, Leftover(dir, ks[0].0, |ks[0].1|));
    assert Back(Read(now, ks[1].0, JSON), ks[1].1, Leftover(dir, ks[1].0, |ks[1].1|));
    assert Back(Read(now, ks[2].0, JSON), ks[2].1, Leftover(dir, ks[2].0, |ks[2].1|));
    assert Back(Read(now, ks[3].0, JSON), ks[3].1, Leftover(dir, ks[3].0, |ks[3].1|));
    assert Back(Read(now, ks[4].0, JSON), ks[4].1, Leftover(dir, ks[4].0, |ks[4].1|));
    assert Back(Read(now, ks[5].0, JSON), ks[5].1, Leftover(dir, ks[5].0, |ks[5].1|));
    SecretsBack(now, b.secrets, Leftover(dir, SECRET, |b.secrets|), shared);
  }

  lemma SecretsBack(now: seq<File>, given: seq<string>, left: seq<string>, shared: Option<seq<File>>)
    requires Back(Read(now, SECRET, JSON), given, left)
    ensures if given == [] && left == [] && shared.Some? then SecretTexts(now, shared) == Read(shared.value, SECRET, "")
            else Back(Encoded(SecretTexts(now, shared)), Encoded(given), Encoded(left))
  {
    var own := Read(now, SECRET, JSON);
    EncodedBack(own, given, left);
    assert |multiset(own)| == |multiset(given) + multiset(left)| == |given| + |left|;
  }

  // ---------------------------------------------------------------- the registry

  /** A `plan.json`: two directory names, and the id it holds. */
  datatype PlanFile = PlanFile(dir: string, planDir: string, id: string)
  datatype Metadata = Metadata(templateDirName: string, templatePlanDirName: string)

  const CUSTOM := "custom"

  /** The templates of a listing of plan files; of two with one id the later is taken. */
  function Load(plans: seq<PlanFile>): map<string, Metadata> {
    if plans == [] then map[]
    else
      var p := plans[|plans|-1];
      Load(plans[..|plans|-1])[p.id := Metadata(p.dir, p.planDir)]
  }

  predicate SamePath(p: PlanFile, q: PlanFile) {
    p.dir == q.dir && p.planDir == q.planDir
  }

  /** A new plan file takes its place in the listing. */
  function Place(plans: seq<PlanFile>, p: PlanFile): seq<PlanFile> {
    if plans == [] then [p]
    else if SamePath(p, plans[0]) then [p] + plans[1..]
    else if PathBefore(p, plans[0]) then [p] + plans
    else [plans[0]] + Place(plans[1..], p)
  }

  function Drop(plans: seq<PlanFile>, p: PlanFile): seq<PlanFile> {
    if plans == [] then []
    else (if SamePath(p, plans[0]) then [] else [plans[0]]) + Drop(plans[1..], p)
  }

  /** Plan file `i` is the last with the id. */
  predicate LastWithId(plans: seq<PlanFile>, id: string, i: int) {
    0 <= i < |plans| && plans[i].id == id && forall j :: i < j < |plans| ==> plans[j].id != id
  }

  lemma LastIdOfMore(init: seq<PlanFile>, x: PlanFile, id: string, i: int)
    requires LastWithId(init + [x], id, i)
    ensures i < |init| ==> LastWithId(init, id, i) && x.id != id && (init + [x])[i] == init[i]
  {
    assert (init + [x])[|init|] == x && forall j :: 0 <= j < |init| ==> (init + [x])[j] == init[j];
  }

  /** Of the plan files with an id the last one is taken. */
  lemma {:induction false} LoadMeaning(plans: seq<PlanFile>, id: string)
    ensures id in Load(plans) <==> exists q :: q in plans && q.id == id
    ensures forall i :: LastWithId(plans, id, i) ==>
                          id in Load(plans) && Load(plans)[id] == Metadata(plans[i].dir, plans[i].planDir)
  {
    LoadIds(plans, id);
    if plans != [] {
      var init, x := plans[..|plans|-1], plans[|plans|-1];
      LoadMeaning(init, id);
      assert plans == init + [x];
      forall i | LastWithId(plans, id, i)
        ensures id in Load(plans) && Load(plans)[id] == Metadata(plans[i].dir, plans[i].planDir)
      {
        LastIdOfMore(init, x, id, i);
      }
    }
  }

  /** The plan files in order, without those in the given directories. */
  lemma DropMeaning(a: seq<PlanFile>, b: seq<PlanFile>, q: PlanFile, p: PlanFile)
    ensures Drop(a + b, p) == Drop(a, p) + Drop(b, p)
    ensures Drop([q], p) == if q.dir == p.dir && q.planDir == p.planDir then [] else [q]
  {
    DropConcat(a, b, p);
    DropFirst(q, [], p);
    assert [q] + [] == [q];
  }

  lemma DropFirst(q: PlanFile, rest: seq<PlanFile>, p: PlanFile)
    ensures Drop([q] + rest, p) == (if SamePath(p, q) then [] else [q]) + Drop(rest, p)
  {
    assert ([q] + rest)[1..] == rest;
  }

  lemma {:induction false} DropConcat(a: seq<PlanFile>, b: seq<PlanFile>, p: PlanFile)
    ensures Drop(a + b, p) == Drop(a, p) + Drop(b, p)
  {
    if a == [] {
      assert a + b == b;
    } else {
      DropConcat(a[1..], b, p);
      assert a + b == [a[0]] + (a[1..] + b) && a == [a[0]] + a[1..];
      DropFirst(a[0], a[1..] + b, p);
      DropFirst(a[0], a[1..], p);
      AppendAssoc(if SamePath(p, a[0]) then [] else [a[0]], Drop(a[1..], p), Drop(b, p));
    }
  }

  /** The order of the listing: by directory, and within one by the directories of the plans. */
  predicate PathBefore(p: PlanFile, q: PlanFile) {
    Before(p.dir, q.dir) || (p.dir == q.dir && Before(p.planDir, q.planDir))
  }

  predicate Listed(plans: seq<PlanFile>) {
    forall i, j :: 0 <= i < j < |plans| ==> PathBefore(plans[i], plans[j])
  }

  lemma PathTrans(p: PlanFile, q: PlanFile, r: PlanFile)
    requires PathBefore(p, q) && PathBefore(q, r)
    ensures PathBefore(p, r)
  {
    if Before(p.dir, q.dir) && Before(q.dir, r.dir) {
      BeforeTrans(p.dir, q.dir, r.dir);
    } else if p.dir == q.dir == r.dir {
      BeforeTrans(p.planDir, q.planDir, r.planDir);
    }
  }

  /** A plan file takes its place in the order. */
  lemma {:induction false} PlaceSorts(plans: seq<PlanFile>, p: PlanFile)
    requires Listed(plans)
    ensures Listed(Place(plans, p)) && forall q :: q in Place(plans, p) ==> q == p || q in plans
  {
    if plans != [] {
      var first, rest := plans[0], plans[1..];
      BeforeTotal(p.dir, first.dir);
      BeforeTotal(p.planDir, first.planDir);
      if !SamePath(p, first) && !PathBefore(p, first) {
        PlaceSorts(rest, p);
        FirstListed(first, Place(rest, p), rest, p);
      } else if !SamePath(p, first) {
        forall i | 0 <= i < |plans| ensures PathBefore(p, plans[i]) {
          if i > 0 { PathTrans(p, first, plans[i]); }
        }
      }
    }
  }

  lemma FirstListed(first: PlanFile, placed: seq<PlanFile>, rest: seq<PlanFile>, p: PlanFile)
    requires Listed([first] + rest) && Listed(placed) && PathBefore(first, p)
    requires forall q :: q in placed ==> q == p || q in rest
    ensures Listed([first] + placed)
  {
    forall q | q in placed ensures PathBefore(first, q) {
      if q != p {
        var i :| 0 <= i < |rest| && rest[i] == q;
        assert ([first] + rest)[0] == first && ([first] + rest)[i+1] == q;
      }
    }
  }

  /** A plan file that was there is overwritten in its place. */
  lemma {:induction false} PlaceAgain(a: seq<PlanFile>, q: PlanFile, b: seq<PlanFile>, p: PlanFile)
    requires q.dir == p.dir && q.planDir == p.planDir
    requires forall x :: x in a ==> PathBefore(x, p)
    ensures Place(a + ([q] + b), p) == a + ([p] + b)
  {
    if a == [] {
      assert a + ([q] + b) == [q] + b && ([q] + b)[1..] == b;
    } else {
      PlaceAgain(a[1..], q, b, p);
      assert a[0] in a && PathBefore(a[0], p);
      PlaceBehind(a[0], a[1..] + ([q] + b), p);
      assert a + ([q] + b) == [a[0]] + (a[1..] + ([q] + b));
      assert a + ([p] + b) == [a[0]] + (a[1..] + ([p] + b));
    }
  }

  lemma PlaceBehind(x: PlanFile, rest: seq<PlanFile>, p: PlanFile)
    requires PathBefore(x, p)
    ensures Place([x] + rest, p) == [x] + Place(rest, p)
  {
    BeforeTotal(x.dir, p.dir);
    BeforeTotal(x.planDir, p.planDir);
    assert ([x] + rest)[1..] == rest;
  }

  predicate NewPlan(plans: seq<PlanFile>, p: PlanFile) {
    forall q :: q in plans ==> !SamePath(p, q) && q.id != p.id
  }

  lemma {:induction false} DropNothing(plans: seq<PlanFile>, p: PlanFile)
    requires forall q :: q in plans ==> !SamePath(p, q)
    ensures Drop(plans, p) == plans
  {
    if plans != [] {
      DropNothing(plans[1..], p);
    }
  }

  lemma {:induction false} PlaceSplits(plans: seq<PlanFile>, p: PlanFile) returns (a: seq<PlanFile>, b: seq<PlanFile>)
    requires NewPlan(plans, p)
    ensures plans == a + b && Place(plans, p) == a + ([p] + b)
  {
    if plans == [] {
      a, b := [], [];
    } else if PathBefore(p, plans[0]) {
      a, b := [], plans;
    } else {
      a, b := PlaceSplits(plans[1..], p);
      a := [plans[0]] + a;
    }
  }

  lemma {:induction false} DropPlaced(plans: seq<PlanFile>, p: PlanFile)
    requires forall q :: q in plans ==> !SamePath(p, q)
    ensures Drop(Place(plans, p), p) == plans
  {
    if plans != [] {
      if PathBefore(p, plans[0]) {
        assert Place(plans, p)[1..] == plans;
        DropNothing(plans, p);
      } else {
        DropPlaced(plans[1..], p);
        assert Place(plans, p)[1..] == Place(plans[1..], p);
      }
    }
  }

  lemma LoadSnoc(plans: seq<PlanFile>, x: PlanFile)
    ensures Load(plans + [x]) == Load(plans)[x.id := Metadata(x.dir, x.planDir)]
  {
    assert (plans + [x])[..|plans|] == plans;
  }

  lemma UpdatesSwap(m: map<string, Metadata>, a: string, b: string, x: Metadata, y: Metadata)
    requires a != b
    ensures m[a := x][b := y] == m[b := y][a := x]
  {
  }

  lemma {:induction false} LoadInserted(a: seq<PlanFile>, p: PlanFile, b: seq<PlanFile>)
    requires forall q :: q in b ==> q.id != p.id
    ensures Load(a + ([p] + b)) == Load(a + b)[p.id := Metadata(p.dir, p.planDir)]
  {
    if b == [] {
      assert a + ([p] + b) == a + [p] && a + b == a;
      LoadSnoc(a, p);
    } else {
      var init, last := b[..|b|-1], b[|b|-1];
      assert last in b;
      LoadInserted(a, p, init);
      LastBehind(a, [p] + init, last);
      LastBehind(a, init, last);
      assert b == init + [last] && [p] + b == ([p] + init) + [last];
      UpdatesSwap(Load(a + init), p.id, last.id, Metadata(p.dir, p.planDir), Metadata(last.dir, last.planDir));
    }
  }

  lemma LastBehind(a: seq<PlanFile>, b: seq<PlanFile>, x: PlanFile)
    ensures Load(a + (b + [x])) == Load(a + b)[x.id := Metadata(x.dir, x.planDir)]
  {
    assert a + (b + [x]) == (a + b) + [x];
    LoadSnoc(a + b, x);
  }

  lemma {:induction false} LoadIds(plans: seq<PlanFile>, id: string)
    ensures id in Load(plans) <==> exists q :: q in plans && q.id == id
  {
    if plans != [] {
      var init, last := plans[..|plans|-1], plans[|plans|-1];
      LoadIds(init, id);
      assert plans == init + [last];
    }
  }

  /**
   * Adding a template with a new id adds exactly it to the registry, wherever its file is listed; removing it restores
   * the registry.
   */
  lemma AddThenRemove(plans: seq<PlanFile>, p: PlanFile)
    requires NewPlan(plans, p)
    ensures p.id !in Load(plans) && Load(Place(plans, p)) == Load(plans)[p.id := Metadata(p.dir, p.planDir)]
    ensures Load(Drop(Place(plans, p), p)) == Load(plans)
  {
    LoadIds(plans, p.id);
    var a, b := PlaceSplits(plans, p);
    LoadInserted(a, p, b);
    DropPlaced(plans, p);
  }

  // ---------------------------------------------------------------- the store

  predicate AllOk(writes: seq<bool>) {
    forall i :: 0 <= i < |writes| ==> writes[i]
  }

  function DirOf(k8s: map<string, seq<File>>, id: string): seq<File> {
    if id in k8s then k8s[id] else []
  }

  /** The files written into the directory of a template, which comes to exist with the first of them. */
  function Put(k8s: map<string, seq<File>>, id: string, fs: seq<File>): map<string, seq<File>> {
    if fs == [] then k8s else k8s[id := WriteAll(DirOf(k8s, id), fs)]
  }

  lemma PutSnoc(k8s: map<string, seq<File>>, id: string, fs: seq<File>, f: File)
    ensures var now := Put(k8s, id, fs); now[id := Write(DirOf(now, id), f)] == Put(k8s, id, fs + [f])
  {
    var dir, all := DirOf(k8s, id), fs + [f];
    assert all[..|fs|] == fs && all[|fs|] == f;
    assert WriteAll(dir, all) == Write(WriteAll(dir, fs), f);
    UpdateTwice(k8s, id, WriteAll(dir, fs), WriteAll(dir, all));
  }

  lemma PutConcat(k8s: map<string, seq<File>>, id: string, a: seq<File>, b: seq<File>)
    ensures Put(Put(k8s, id, a), id, b) == Put(k8s, id, a + b)
  {
    var dir := DirOf(k8s, id);
    WriteAllConcat(dir, a, b);
    assert a + [] == a && [] + b == b;
    UpdateTwice(k8s, id, WriteAll(dir, a), WriteAll(dir, a + b));
  }

  lemma UpdateTwice(m: map<string, seq<File>>, id: string, x: seq<File>, y: seq<File>)
    ensures m[id := x][id := y] == m[id := y]
  {
  }

  /** Some of the files, in their order. */
  predicate Part(some: seq<File>, all: seq<File>) {
    if all == [] then some == []
    else
      var last := all[|all|-1];
      Part(some, all[..|all|-1]) || (some != [] && some[|some|-1] == last && Part(some[..|some|-1], all[..|all|-1]))
  }

  lemma PartSnoc(some: seq<File>, all: seq<File>, f: File)
    requires Part(some, all)
    ensures Part(some, all + [f]) && Part(some + [f], all + [f])
  {
    assert (all + [f])[..|all|] == all && (some + [f])[..|some|] == some;
  }

  /** What is left over of a sorted directory is sorted, so that another addition finds it so. */
  lemma {:induction false} PartSorted(some: seq<File>, all: seq<File>)
    requires Part(some, all) && Sorted(all)
    ensures Sorted(some) && forall f :: f in some ==> f in all
  {
    if all != [] {
      var init := all[..|all|-1];
      if Part(some, init) {
        PartSorted(some, init);
      } else {
        var few, n := some[..|some|-1], |some| - 1;
        PartSorted(few, init);
        forall i, j | 0 <= i < j < |some| ensures Before(some[i].name, some[j].name) {
          assert some[i] == few[i];
          if j < n {
            assert some[j] == few[j];
          } else {
            assert few[i] in init;
          }
        }
        assert some == few + [all[|all|-1]];
      }
    }
  }

  class TemplateStore {
    /** The directories `custom/<id>/k8s`. */
    var k8s: map<string, seq<File>>
    /** All plan files, as the directories list them. */
    var plans: seq<PlanFile>
    var registry: map<string, Metadata>
    /** How the writes to come end; a write beyond the script succeeds. */
    var writes: seq<bool>
    /** The directory `custom/secretTemplates`. */
    const shared: Option<seq<File>>

    constructor (plans: seq<PlanFile>, writes: seq<bool>, shared: Option<seq<File>>)
      ensures k8s == map[] && this.plans == plans && registry == Load(plans) && this.writes == writes &&
              this.shared == shared
    {
      this.k8s, this.plans, this.writes, this.shared := map[], plans, writes, shared;
      registry := Load(plans);
    }

    method NextWrite() returns (ok: bool)
      modifies this`writes
      ensures AllOk(old(writes)) ==> AllOk(writes) && ok
    {
      ok := writes == [] || writes[0];
      writes := if writes == [] then [] else writes[1..];
    }

    /** A write that fails may have made the directory. */
    method SaveFile(id: string, f: File) returns (ok: bool)
      modifies this`k8s, this`writes
      ensures ok ==> k8s == old(k8s)[id := Write(DirOf(old(k8s), id), f)]
      ensures k8s - {id} == old(k8s) - {id}
      ensures AllOk(old(writes)) ==> AllOk(writes) && ok
    {
      var mkdir := NextWrite();
      if !mkdir {
        return false;
      }
      k8s := k8s[id := DirOf(k8s, id)];
      ok := NextWrite();
      if ok {
        k8s := k8s[id := Write(k8s[id], f)];
      }
    }

    method SaveKind(id: string, kind: string, texts: seq<string>) returns (ok: bool)
      modifies this`k8s, this`writes
      ensures ok ==> k8s == Put(old(k8s), id, Files(kind, texts))
      ensures k8s - {id} == old(k8s) - {id}
      ensures AllOk(old(writes)) ==> AllOk(writes) && ok
    {
      ghost var fs := Files(kind, texts);
      for i := 0 to |texts|
        invariant k8s == Put(old(k8s), id, fs[..i]) && k8s - {id} == old(k8s) - {id}
        invariant AllOk(old(writes)) ==> AllOk(writes)
      {
        PutSnoc(old(k8s), id, fs[..i], fs[i]);
        assert fs[..i+1] == fs[..i] + [fs[i]];
        ok := SaveFile(id, File(FileName(kind, i), texts[i]));
        if !ok {
          return;
        }
      }
      assert fs[..|texts|] == fs;
      ok := true;
    }

    /** The six blocks, then the plan file, then the registry; the first error ends it. */
    method AddAndRegisterCustomTemplate(id: string, body: Body) returns (ok: bool)
      modifies this`k8s, this`plans, this`registry, this`writes
      ensures ok ==>
                && k8s == Put(old(k8s), id, FilesOf(KindsOf(body)))
                && plans == Place(old(plans), PlanFile("custom", id, id)) && registry == Load(plans)
      ensures !ok ==> plans == old(plans) && registry == old(registry)
      ensures k8s - {id} == old(k8s) - {id}
      ensures AllOk(old(writes)) ==> AllOk(writes) && ok
    {
      var ks := KindsOf(body);
      for k := 0 to 6
        invariant k8s == Put(old(k8s), id, FilesOf(ks[..k])) && k8s - {id} == old(k8s) - {id}
        invariant plans == old(plans) && registry == old(registry)
        invariant AllOk(old(writes)) ==> AllOk(writes)
      {
        assert ks[..k+1][..k] == ks[..k];
        PutConcat(old(k8s), id, FilesOf(ks[..k]), Files(ks[k].0, ks[k].1));
        ok := SaveKind(id, ks[k].0, ks[k].1);
        if !ok {
          return;
        }
      }
      assert ks[..6] == ks;
      ok := NextWrite();
      if ok {
        plans := Place(plans, PlanFile(CUSTOM, id, id));
        registry := Load(plans);
      }
    }

    /** The files of the objects are removed as far as that succeeds; the directory goes with the last. */
    method RemoveFiles(id: string) returns (ok: bool)
      modifies this`k8s, this`writes
      ensures ok ==> k8s == old(k8s) - {id}
      ensures !ok ==> id in k8s && id in old(k8s) && Part(k8s[id], old(k8s)[id])
      ensures k8s - {id} == old(k8s) - {id}
      ensures AllOk(old(writes)) ==> AllOk(writes) && ok
    {
      if id !in k8s {
        return true;
      }
      var dir, left: seq<File> := k8s[id], [];
      for i := 0 to |dir|
        invariant k8s == old(k8s) && Part(left, dir[..i])
        invariant AllOk(old(writes)) ==> AllOk(writes) && left == []
      {
        PartSnoc(left, dir[..i], dir[i]);
        assert dir[..i] + [dir[i]] == dir[..i+1];
        var removed := NextWrite();
        left := if removed then left else left + [dir[i]];
      }
      assert dir[..|dir|] == dir;
      ok := NextWrite();
      ok := ok && left == [];
      k8s := if ok then k8s - {id} else k8s[id := left];
    }

    /**
     * The template's directory is removed with all that is in it; an error does not stop that, so that the plan file
     * may be gone although files of objects are left. The registry is loaded again only when all is gone.
     */
    method RemoveAndUnregisterCustomTemplate(id: string) returns (ok: bool)
      modifies this`k8s, this`plans, this`registry, this`writes
      ensures ok ==>
                && k8s == old(k8s) - {id}
                && plans == Drop(old(plans), PlanFile("custom", id, id)) && registry == Load(plans)
      ensures !ok ==> registry == old(registry) && plans in [old(plans), Drop(old(plans), PlanFile("custom", id, id))]
      ensures id in k8s ==> id in old(k8s) && Part(k8s[id], old(k8s)[id])
      ensures Sorted(DirOf(old(k8s), id)) ==> Sorted(DirOf(k8s, id))
      ensures k8s - {id} == old(k8s) - {id}
      ensures AllOk(old(writes)) ==> AllOk(writes) && ok
    {
      var files := RemoveFiles(id);
      if !files && Sorted(old(k8s)[id]) {
        PartSorted(k8s[id], old(k8s)[id]);
      }
      var plan := NextWrite();
      if plan {
        plans := Drop(plans, PlanFile(CUSTOM, id, id));
      }
      ok := NextWrite();
      ok := ok && files && plan;
      if ok {
        registry := Load(plans);
      }
    }

    /** Reading gives back what was written; it fails when the template has no directory of objects. */
    method GetRawTemplate(id: string) returns (r: Option<Raw>)
      ensures r.None? <==> id !in k8s
      ensures forall dir, b :: r.Some? && Sorted(dir) && k8s[id] == WriteAll(dir, FilesOf(KindsOf(b))) ==>
                GivenBack(r.value, dir, b, shared)
    {
      if id !in k8s {
        return None;
      }
      r := Some(RawOf(k8s[id], shared));
      forall dir, b | Sorted(dir) && k8s[id] == WriteAll(dir, FilesOf(KindsOf(b)))
        ensures GivenBack(r.value, dir, b, shared)
      {
        RoundTrip(dir, b, shared);
      }
    }

    /**
     * A template under a new id, added, read and removed: what is read is what was given and what an earlier attempt
     * left in the directory; in the end the directory is gone and the rest of the store and the registry are as before.
     */
    method AddReadRemove(id: string, body: Body) returns (read: Option<Raw>, removed: bool)
      requires Sorted(DirOf(k8s, id)) && NewPlan(plans, PlanFile(CUSTOM, id, id)) && registry == Load(plans)
      modifies this`k8s, this`plans, this`registry, this`writes
      ensures read.Some? ==> GivenBack(read.value, DirOf(old(k8s), id), body, shared)
      ensures removed ==> k8s == old(k8s) - {id} && plans == old(plans) && registry == old(registry)
      ensures AllOk(old(writes)) ==> removed && (read.Some? <==> FilesOf(KindsOf(body)) != [] || id in old(k8s))
    {
      ghost var before := k8s;
      AddThenRemove(plans, PlanFile(CUSTOM, id, id));
      DropPlaced(plans, PlanFile(CUSTOM, id, id));
      DropNothing(plans, PlanFile(CUSTOM, id, id));
      var added := AddAndRegisterCustomTemplate(id, body);
      if added {
        assert id in k8s ==> k8s[id] == WriteAll(DirOf(before, id), FilesOf(KindsOf(body)));
        read := GetRawTemplate(id);
      } else {
        read := None;
      }
      removed := RemoveAndUnregisterCustomTemplate(id);
    }
  }
}

/** Storage key naming for the per-role partitions. */
module Naming {
  import opened Text

  const DataPrefix: string := "ks_data_"
  const GlobalPatientsKey: string := "ks_global_patients"
  const MarkerKey: string := "ks_presc_last_sync"

  /** The seven roles, in the order every cross-partition scan visits them. */
  const Roles: seq<string> :=
    ["Petugas" + " " + "Administrasi", "Dokter", "Perawat", "Kasir", "Apoteker", "Manajer" + " " + "Klinik", "Pasien"]

  /** Lower-cased with every whitespace character removed. */
  function Squash(s: string): string {
    StripSpaces(Lower(s))
  }

  /** `roleKey`: a falsy (empty) role is "unknown"; otherwise the role squashed. */
  function RoleKey(role: string): (k: string)
    ensures role == [] ==> k == "unknown"
    ensures role != [] ==> |k| <= |role|
  {
    if role == [] then "unknown" else Squash(role)
  }

  /** A key holds no whitespace and no upper-case letter, and no '_' unless the role does. */
  lemma {:induction false} RoleKeyCanonical(role: string)
    ensures forall c :: c in RoleKey(role) ==> !IsSpace(c) && !IsUpper(c)
    ensures '_' !in role ==> '_' !in RoleKey(role)
  {
    if role != [] {
      var l := Lower(role);
      StripSpacesMembers(l);
      forall c | c in RoleKey(role) ensures !IsSpace(c) && !IsUpper(c) && (c == '_' ==> '_' in role) {
        var i :| 0 <= i < |l| && l[i] == c;
        assert role[i] in role;
      }
    }
  }

  /** `dataKeyForRole`: the storage key of a role's partition. */
  function DataKeyForRole(role: string): (k: string)
    ensures |k| >= |DataPrefix| && k[..|DataPrefix|] == DataPrefix
    ensures k[|DataPrefix|..] == RoleKey(role)
    ensures k != GlobalPatientsKey && k != MarkerKey
  {
    var k := DataPrefix + RoleKey(role);
    assert k[..|DataPrefix|] == DataPrefix;
    assert k[3] == 'd' && GlobalPatientsKey[3] == 'g' && MarkerKey[3] == 'p';
    k
  }

  /** Two roles share a partition exactly when their keys agree. */
  lemma DataKeyInjective(r1: string, r2: string)
    ensures DataKeyForRole(r1) == DataKeyForRole(r2) <==> RoleKey(r1) == RoleKey(r2)
  {
    if DataKeyForRole(r1) == DataKeyForRole(r2) {
      assert DataKeyForRole(r1)[|DataPrefix|..] == DataKeyForRole(r2)[|DataPrefix|..];
    }
  }

  lemma {:induction false} SquashConcat(a: string, b: string)
    ensures Squash(a + b) == Squash(a) + Squash(b)
  {
    LowerConcat(a, b);
    StripSpacesConcat(Lower(a), Lower(b));
  }

  /** A whitespace character on its own squashes to nothing. */
  lemma SquashSpace(c: char)
    requires IsSpace(c)
    ensures Squash([c]) == []
  {
    var d := LowerChar(c);
    assert Lower([c]) == [d];
    assert StripSpaces([d]) == [] by {
      assert [d][1..] == [];
    }
  }

  /** A role's key ignores a whitespace character inserted anywhere in its name. */
  lemma {:induction false} RoleKeyIgnoresSpace(a: string, b: string, c: char)
    requires IsSpace(c) && a + b != []
    ensures RoleKey(a + [c] + b) == RoleKey(a + b)
  {
    SquashSpace(c);
    SquashConcat(a, [c]);
    assert Squash(a + [c]) == Squash(a);
    SquashConcat(a + [c], b);
    SquashConcat(a, b);
    assert a + [c] + b != [];
  }

  /** A role's key ignores the case of its ASCII letters. */
  lemma {:induction false} RoleKeyIgnoresCase(a: string, b: string)
    requires Lower(a) == Lower(b)
    ensures RoleKey(a) == RoleKey(b)
  {
    assert |b| == |a|;
  }

  /** A key is a fixed point of `RoleKey`, unless it is empty (an all-whitespace role). */
  lemma {:induction false} RoleKeyIdempotent(role: string)
    requires RoleKey(role) != []
    ensures RoleKey(RoleKey(role)) == RoleKey(role)
  {
    var k := RoleKey(role);
    RoleKeyCanonical(role);
    assert forall i :: 0 <= i < |k| ==> k[i] in k;
    assert Lower(k) == k;
    StripSpacesNone(k);
  }

  /** A name without whitespace keys to its lower-cased self. */
  lemma {:induction false} SquashNoSpace(s: string)
    requires forall j :: 0 <= j < |s| ==> !IsSpace(s[j])
    ensures Squash(s) == Lower(s)
  {
    StripSpacesNone(Lower(s));
  }

  /** Two words joined by a space key to the two words lower-cased. */
  lemma {:induction false} SquashTwoWords(a: string, b: string)
    requires forall j :: 0 <= j < |a| ==> !IsSpace(a[j])
    requires forall j :: 0 <= j < |b| ==> !IsSpace(b[j])
    ensures Squash(a + " " + b) == Lower(a) + Lower(b)
  {
    SquashBlank();
    SquashConcat(a, " ");
    SquashNoSpace(a);
    assert Squash(a + " ") == Lower(a);
    SquashConcat(a + " ", b);
    SquashNoSpace(b);
  }

  lemma SquashBlank()
    ensures Squash(" ") == []
  {
    SquashSpace(' ');
    assert " " == [' '];
  }

  /** A role of one word keys to the word lower-cased. */
  lemma KeyOfWord(w: string, lower: string)
    requires w != [] && forall j :: 0 <= j < |w| ==> !IsSpace(w[j])
    requires Lower(w) == lower
    ensures RoleKey(w) == lower
  {
    SquashNoSpace(w);
  }

  /** A role of two words and a space keys to the two words lower-cased. */
  lemma KeyOfTwoWords(a: string, b: string, lowerA: string, lowerB: string)
    requires forall j :: 0 <= j < |a| ==> !IsSpace(a[j])
    requires forall j :: 0 <= j < |b| ==> !IsSpace(b[j])
    requires Lower(a) == lowerA && Lower(b) == lowerB
    ensures RoleKey(a + " " + b) == lowerA + lowerB
  {
    SquashTwoWords(a, b);
  }

  /** The keys of the seven roles, in scan order. */
  const RoleKeys: seq<string> :=
    ["petugas" + "administrasi", "dokter", "perawat", "kasir", "apoteker", "manajer" + "klinik", "pasien"]

  lemma RoleKeyAt0() ensures RoleKey(Roles[0]) == RoleKeys[0] {
    var a, b := "Petugas", "Administrasi";
    assert forall j :: 0 <= j < |a| ==> !IsSpace(a[j]);
    assert forall j :: 0 <= j < |b| ==> !IsSpace(b[j]);
    assert Lower(a) == "petugas" && Lower(b) == "administrasi";
    KeyOfTwoWords(a, b, "petugas", "administrasi");
  }
  lemma RoleKeyAt1() ensures RoleKey(Roles[1]) == RoleKeys[1] {
    var w := "Dokter";
    assert forall j :: 0 <= j < |w| ==> !IsSpace(w[j]);
    assert Lower(w) == "dokter";
    KeyOfWord(w, "dokter");
  }
  lemma RoleKeyAt2() ensures RoleKey(Roles[2]) == RoleKeys[2] {
    var w := "Perawat";
    assert forall j :: 0 <= j < |w| ==> !IsSpace(w[j]);
    assert Lower(w) == "perawat";
    KeyOfWord(w, "perawat");
  }
  lemma RoleKeyAt3() ensures RoleKey(Roles[3]) == RoleKeys[3] {
    var w := "Kasir";
    assert forall j :: 0 <= j < |w| ==> !IsSpace(w[j]);
    assert Lower(w) == "kasir";
    KeyOfWord(w, "kasir");
  }
  lemma RoleKeyAt4() ensures RoleKey(Roles[4]) == RoleKeys[4] {
    var w := "Apoteker";
    assert forall j :: 0 <= j < |w| ==> !IsSpace(w[j]);
    assert Lower(w) == "apoteker";
    KeyOfWord(w, "apoteker");
  }
  lemma RoleKeyAt5() ensures RoleKey(Roles[5]) == RoleKeys[5] {
    var a, b := "Manajer", "Klinik";
    assert forall j :: 0 <= j < |a| ==> !IsSpace(a[j]);
    assert forall j :: 0 <= j < |b| ==> !IsSpace(b[j]);
    assert Lower(a) == "manajer" && Lower(b) == "klinik";
    KeyOfTwoWords(a, b, "manajer", "klinik");
  }
  lemma RoleKeyAt6() ensures RoleKey(Roles[6]) == RoleKeys[6] {
    var w := "Pasien";
    assert forall j :: 0 <= j < |w| ==> !IsSpace(w[j]);
    assert Lower(w) == "pasien";
    KeyOfWord(w, "pasien");
  }

  /** The key of each of the seven roles. */
  lemma RoleKeysOfRoles()
    ensures forall i :: 0 <= i < |Roles| ==> RoleKey(Roles[i]) == RoleKeys[i]
  {
    RoleKeyAt0(); RoleKeyAt1(); RoleKeyAt2(); RoleKeyAt3(); RoleKeyAt4(); RoleKeyAt5(); RoleKeyAt6();
    forall i | 0 <= i < |Roles| ensures RoleKey(Roles[i]) == RoleKeys[i] {
      assert i == 0 || i == 1 || i == 2 || i == 3 || i == 4 || i == 5 || i == 6;
    }
  }

  lemma RoleKeysDistinct()
    ensures forall i, j :: 0 <= i < |RoleKeys| && 0 <= j < |RoleKeys| && i != j ==> RoleKeys[i] != RoleKeys[j]
  {
  }

  /** The seven roles own seven different partitions. */
  lemma RoleDataKeysDistinct()
    ensures forall i, j :: 0 <= i < |Roles| && 0 <= j < |Roles| && i != j ==>
      DataKeyForRole(Roles[i]) != DataKeyForRole(Roles[j])
  {
    RoleKeysOfRoles();
    RoleKeysDistinct();
    forall i, j | 0 <= i < |Roles| && 0 <= j < |Roles| && i != j
      ensures DataKeyForRole(Roles[i]) != DataKeyForRole(Roles[j])
    {
      DataKeyInjective(Roles[i], Roles[j]);
    }
  }
}

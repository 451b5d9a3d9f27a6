/**
 * String utilities of the USD Hydra add-on: random alphanumeric names,
 * the temporary file paths built from them, and which USD prims the
 * exporter skips. The random source, the process id and the system
 * temporary directory are parameters; file creation is reported, not
 * performed.
 */
module UsdUtils {
  import opened Wrappers
  import opened Text

  /** The i-th character of get_random_string's alphabet: digits, upper case, lower case, in ASCII order. */
  function AlnumAt(i: nat): char
    requires i < 62
  {
    if i < 10 then ('0' as int + i) as char
    else if i < 36 then ('A' as int + i - 10) as char
    else ('a' as int + i - 36) as char
  }

  /** The alphabet of get_random_string, without the terminating NUL. */
  const ALPHANUM: string := seq(62, i requires 0 <= i < 62 => AlnumAt(i))

  predicate IsAlnum(c: char) { '0' <= c <= '9' || 'A' <= c <= 'Z' || 'a' <= c <= 'z' }

  /** The alphabet is exactly the 62 ASCII letters and digits, each once. */
  lemma AlphabetIsAlnum()
    ensures |ALPHANUM| == 62
    ensures forall i :: 0 <= i < 62 ==> IsAlnum(ALPHANUM[i])
    ensures forall c :: IsAlnum(c) ==> exists i :: 0 <= i < 62 && ALPHANUM[i] == c
    ensures ALPHANUM[0] == '0' && ALPHANUM[9] == '9' && ALPHANUM[10] == 'A' && ALPHANUM[35] == 'Z'
    ensures ALPHANUM[36] == 'a' && ALPHANUM[61] == 'z'
  {
    forall c | IsAlnum(c)
      ensures exists i :: 0 <= i < 62 && ALPHANUM[i] == c
    {
      if '0' <= c <= '9' {
        assert ALPHANUM[(c - '0') as int] == c;
      } else if 'A' <= c <= 'Z' {
        assert ALPHANUM[(c - 'A') as int + 10] == c;
      } else {
        assert ALPHANUM[(c - 'a') as int + 36] == c;
      }
    }
  }

  /**
   * get_random_string: `len` characters, the i-th picked by the i-th
   * rand() value modulo 62. A negative length makes the initial reserve
   * throw (None).
   */
  method GetRandomString(len: int, draws: seq<nat>) returns (r: Option<string>)
    requires len <= |draws|
    ensures len < 0 <==> r.None?
    ensures r.Some? ==> (|r.value| == len &&
      forall i :: 0 <= i < len ==> r.value[i] == ALPHANUM[draws[i] % 62] && IsAlnum(r.value[i]))
  {
    if len < 0 {
      return None;
    }
    AlphabetIsAlnum();
    var s := "";
    var i := 0;
    while i < len
      invariant 0 <= i <= len
      invariant |s| == i
      invariant forall k :: 0 <= k < i ==> s[k] == ALPHANUM[draws[k] % 62] && IsAlnum(s[k])
    {
      s := s + [ALPHANUM[draws[i] % |ALPHANUM|]];
      i := i + 1;
    }
    r := Some(s);
  }

  /** `dir / name` of std::filesystem, with `sep` the platform's preferred separator. */
  function Join(dir: string, name: string, sep: char): (r: string)
    ensures EndsWith(r, name) && StartsWith(r, dir)
    ensures dir != [] && dir[|dir| - 1] != sep ==> r == dir + [sep] + name
  {
    var r := if dir == [] || dir[|dir| - 1] == sep then dir + name else dir + [sep] + name;
    assert r[|r| - |name|..] == name && r[..|dir|] == dir;
    r
  }

  /** get_temp_pid_dir: the add-on's directory under the system temporary directory, then the pid. */
  function PidDir(systemTemp: string, sep: char, pid: nat): (r: string)
    ensures StartsWith(r, systemTemp)
    ensures EndsWith(r, NatToString(pid))
    ensures systemTemp != [] && systemTemp[|systemTemp| - 1] != sep && sep !in "usdhydra" ==>
      r == systemTemp + [sep] + "usdhydra" + [sep] + NatToString(pid)
  {
    var d := Join(systemTemp, "usdhydra", sep);
    assert StartsWith(d, systemTemp);
    assert d[|d| - 1] == "usdhydra"[7] by {
      assert d[|d| - 8..] == "usdhydra";
    }
    var r := Join(d, NatToString(pid), sep);
    assert r[..|systemTemp|] == d[..|systemTemp|];
    r
  }

  /** The pid is read back from the end of the directory name. */
  lemma PidDirRoundTrip(systemTemp: string, sep: char, pid: nat)
    ensures var r := PidDir(systemTemp, sep, pid);
      var n := |NatToString(pid)|;
      AllDecimal(r[|r| - n..]) && ParseDecimal(r[|r| - n..]) == pid
  {
    var r := PidDir(systemTemp, sep, pid);
    var digits := NatToString(pid);
    assert r[|r| - |digits|..] == digits;
    DecimalRoundTrip(pid);
  }

  /** The path get_temp_file returns, and whether it creates that file. */
  datatype TempFile = TempFile(path: string, created: bool)

  /**
   * get_temp_file, given the pid directory and the eight random
   * characters it always draws. Without a name: "tmp" plus the random
   * part plus the suffix, created. With a name and a suffix, when asked
   * for randomness: name, "_", the random part, the suffix, created.
   * Otherwise name and suffix, not created.
   */
  function TempFilePath(suffix: string, name: string, isRand: bool, pidDir: string, random: string): (r: TempFile)
    ensures StartsWith(r.path, pidDir + "/") && EndsWith(r.path, suffix)
    ensures r.created <==> name == [] || (suffix != [] && isRand)
    ensures r.created ==> |r.path| >= |suffix| + |random|
    ensures r.created ==> r.path[|r.path| - |suffix| - |random|..|r.path| - |suffix|] == random
    ensures !r.created ==> r.path == pidDir + "/" + name + suffix
  {
    var r := if name == [] then TempFile(pidDir + "/tmp" + random + suffix, true)
      else if suffix != [] && isRand then TempFile(pidDir + "/" + name + "_" + random + suffix, true)
      else TempFile(pidDir + "/" + name + suffix, false);
    assert r.path[..|pidDir + "/"|] == pidDir + "/";
    assert r.path[|r.path| - |suffix|..] == suffix;
    assert r.created ==> r.path[|r.path| - |suffix| - |random|..|r.path| - |suffix|] == random;
    r
  }

  /** Without a name the random name is used whatever `isRand` says. */
  lemma TempFileUnnamed(suffix: string, pidDir: string, random: string, isRand: bool)
    ensures TempFilePath(suffix, [], isRand, pidDir, random) == TempFilePath(suffix, [], !isRand, pidDir, random)
    ensures TempFilePath(suffix, [], isRand, pidDir, random).path == pidDir + "/tmp" + random + suffix
  {
  }

  /** A random named file puts "_" and the random part between name and suffix. */
  lemma TempFileNamedRandom(suffix: string, name: string, pidDir: string, random: string)
    requires name != [] && suffix != []
    ensures TempFilePath(suffix, name, true, pidDir, random).path == pidDir + "/" + name + "_" + random + suffix
  {
  }

  /** get_temp_file: draws eight characters, then picks the path. */
  method GetTempFile(suffix: string, name: string, isRand: bool, pidDir: string, draws: seq<nat>) returns (r: TempFile)
    requires 8 <= |draws|
    ensures exists random :: (|random| == 8 && (forall i :: 0 <= i < 8 ==> IsAlnum(random[i])) &&
      r == TempFilePath(suffix, name, isRand, pidDir, random))
  {
    var filename := GetRandomString(8, draws);
    r := TempFilePath(suffix, name, isRand, pidDir, filename.value);
  }

  const SUPPORTED_PRIM_TYPES: set<string> := {"Xform", "SkelRoot"}
  const SUPPORTED_GEOM_TYPES: set<string> := {"Mesh", "Camera"}

  /** ignore_prim on the prim's type name. */
  function IgnorePrim(typeName: string): (b: bool)
    ensures b ==> typeName != []
    ensures b ==> typeName !in SUPPORTED_PRIM_TYPES + SUPPORTED_GEOM_TYPES
  {
    if typeName == [] then false
    else !(typeName in SUPPORTED_PRIM_TYPES || typeName in SUPPORTED_GEOM_TYPES || EndsWith(typeName, "Light"))
  }

  /** A typed prim is skipped exactly when its type is none of the four supported ones and is no light. */
  lemma IgnorePrimExact(typeName: string)
    requires typeName != []
    ensures IgnorePrim(typeName) <==>
      typeName != "Xform" && typeName != "SkelRoot" && typeName != "Mesh" && typeName != "Camera" &&
      !(|typeName| >= 5 && typeName[|typeName| - 5..] == "Light")
  {
  }

  /** Light types and supported types are kept; "Scope", whose entry is commented out, is skipped. */
  lemma IgnorePrimExamples()
    ensures !IgnorePrim("SphereLight") && !IgnorePrim("DistantLight") && !IgnorePrim("Mesh")
    ensures IgnorePrim("Scope") && IgnorePrim("Lights") && !IgnorePrim("")
  {
    assert "SphereLight"[6..] == "Light";
    assert "DistantLight"[7..] == "Light";
    assert "Lights"[1..] != "Light";
    assert "Scope"[0..] != "Light";
  }
}

/** The frontend statement `CREATE STORAGE VAULT name PROPERTIES (...)`
    (`CreateStorageVaultStmt`): its analysis validates the property map,
    extracts the vault type and the numeric options, and defaults the
    path-style flag of S3 vaults. */
module Analysis {
  import opened Wrappers

  /** The value of a Java `int`. */
  type Int32 = x: int | -0x8000_0000 <= x < 0x8000_0000

  /** `StorageVault.StorageVaultType`. */
  datatype VaultType = UNKNOWN | S3 | HDFS

  /** What analysis throws. */
  datatype AnalysisError =
    | AnalysisException(msg: string)        // AnalysisException and the name check's errors
    | AccessDenied(privilege: string)       // ERR_SPECIFIC_ACCESS_DENIED_ERROR
    | NumberFormat(input: string)           // Integer.parseInt rejected its input
    | UnsupportedOperation                  // ImmutableMap.remove

  const PATH_VERSION := "path_version"
  const SHARD_NUM := "shard_num"
  const SET_AS_DEFAULT := "set_as_default"
  /** `StorageVault.PropertyKey.TYPE`. */
  const TYPE := "type"
  /** `PropertyConverter.USE_PATH_STYLE`. */
  const USE_PATH_STYLE := "use_path_style"

  const CLOUD_ONLY := "Storage Vault is only supported for cloud mode"
  const VAULT_DISABLED := "Your cloud instance doesn't support storage vault"
  const NULL_PROPERTIES := "Storage Vault properties can't be null"
  const MISSING_TYPE := "Missing property type"
  const EMPTY_TYPE := "Property type cannot be empty"
  const UNSUPPORTED_UNKNOWN := "Unsupported Storage Vault type: UNKNOWN"

  /** A Guava `ImmutableMap`: entries in iteration order. */
  type Props = seq<(string, string)>

  ghost predicate DistinctKeys(p: Props)
  {
    forall i, j :: 0 <= i < j < |p| ==> p[i].0 != p[j].0
  }

  /** `get(key)`: the value under `key`, `None` for Java's null. */
  function Get(p: Props, key: string): (v: Option<string>)
    ensures v.Some? <==> exists i :: 0 <= i < |p| && p[i].0 == key
    ensures v.Some? ==> exists i :: 0 <= i < |p| && p[i] == (key, v.value)
  {
    if p == [] then None
    else if p[0].0 == key then Some(p[0].1)
    else Get(p[1..], key)
  }

  /** With distinct keys, `Get` finds the value of the one entry with that key. */
  lemma {:induction false} GetEntry(p: Props, i: nat)
    requires DistinctKeys(p) && i < |p|
    ensures Get(p, p[i].0) == Some(p[i].1)
  {
    if i > 0 {
      assert p[0].0 != p[i].0;
      assert p[1..][i - 1] == p[i];
      GetEntry(p[1..], i - 1);
    }
  }

  /** `containsKey(key)`. */
  function ContainsKey(p: Props, key: string): bool
  {
    Get(p, key).Some?
  }

  /** `getOrDefault(key, default)`. */
  function GetOrDefault(p: Props, key: string, default: string): string
  {
    match Get(p, key)
    case Some(v) => v
    case None => default
  }

  /** ASCII lower-casing of one character. */
  function LowerAscii(c: char): char
  {
    if 'A' <= c <= 'Z' then (c as int + 32) as char else c
  }

  /** `String.equalsIgnoreCase`, with ASCII case folding. The model only
      compares against lower-case ASCII constants (`type`, `true`), and no
      character other than the ASCII pair of a letter folds to that letter,
      so here it agrees with Java's comparison. */
  function EqualsIgnoreCase(s: string, t: string): (b: bool)
    ensures b <==> |s| == |t| && forall i :: 0 <= i < |s| ==> LowerAscii(s[i]) == LowerAscii(t[i])
  {
    if |s| != |t| then false
    else if s == [] then true
    else LowerAscii(s[0]) == LowerAscii(t[0]) && EqualsIgnoreCase(s[1..], t[1..])
  }

  /** The `type` value the property loop ends with: each entry whose key
      matches `type` ignoring case overwrites the previous one. */
  function TypeValue(p: Props): Option<string>
  {
    if p == [] then None
    else if EqualsIgnoreCase(p[|p| - 1].0, TYPE) then Some(p[|p| - 1].1)
    else TypeValue(p[..|p| - 1])
  }

  /** The type is the value of the last entry, in iteration order, whose key
      matches `type` ignoring case, and is absent exactly when none does. */
  lemma {:induction false} TypeValueIsLastMatch(p: Props)
    ensures TypeValue(p).None? <==> forall i :: 0 <= i < |p| ==> !EqualsIgnoreCase(p[i].0, TYPE)
    ensures TypeValue(p).Some? ==>
              exists i :: 0 <= i < |p| && EqualsIgnoreCase(p[i].0, TYPE) && p[i].1 == TypeValue(p).value &&
                          forall j :: i < j < |p| ==> !EqualsIgnoreCase(p[j].0, TYPE)
  {
    if p != [] {
      var init := p[..|p| - 1];
      TypeValueIsLastMatch(init);
      assert forall i :: 0 <= i < |init| ==> init[i] == p[i];
      if !EqualsIgnoreCase(p[|p| - 1].0, TYPE) && TypeValue(p).Some? {
        var i :| 0 <= i < |init| && EqualsIgnoreCase(init[i].0, TYPE) && init[i].1 == TypeValue(init).value &&
                 forall j :: i < j < |init| ==> !EqualsIgnoreCase(init[j].0, TYPE);
        assert forall j :: i < j < |p| ==> !EqualsIgnoreCase(p[j].0, TYPE);
      }
    }
  }

  predicate IsDigit(c: char)
  {
    '0' <= c <= '9'
  }

  predicate AllDigits(s: string)
  {
    forall i :: 0 <= i < |s| ==> IsDigit(s[i])
  }

  /** The number a run of decimal digits spells. */
  function DigitsValue(d: string): nat
    requires AllDigits(d)
  {
    if d == [] then 0 else DigitsValue(d[..|d| - 1]) * 10 + (d[|d| - 1] as int - '0' as int)
  }

  /** Whether a number starts with a minus sign. */
  predicate Negative(s: string)
  {
    |s| > 0 && s[0] == '-'
  }

  /** A number without its leading sign, if it has one. */
  function Unsigned(s: string): string
  {
    if |s| > 0 && (s[0] == '-' || s[0] == '+') then s[1..] else s
  }

  /** `Integer.parseInt(s)`: an optional sign then at least one decimal
      digit, whose value must fit in an `int`; anything else throws. */
  function ParseInt(s: string): (r: Result<Int32, AnalysisError>)
    ensures r.Failure? ==> r.error == NumberFormat(s)
    ensures s == [] ==> r.Failure?
    ensures r.Success? ==> |s| > 0 && (s[0] == '-' || s[0] == '+' || IsDigit(s[0]))
    ensures var u := Unsigned(s);
            r.Success? <==> u != [] && AllDigits(u) &&
                            (if Negative(s) then DigitsValue(u) <= 0x8000_0000 else DigitsValue(u) < 0x8000_0000)
    ensures r.Success? ==> r.value == if Negative(s) then -(DigitsValue(Unsigned(s)) as int) else DigitsValue(Unsigned(s))
  {
    var digits := Unsigned(s);
    if digits == [] || !AllDigits(digits) then Failure(NumberFormat(s))
    else
      var magnitude: int := DigitsValue(digits);
      var v := if Negative(s) then -magnitude else magnitude;
      if -0x8000_0000 <= v < 0x8000_0000 then Success(v) else Failure(NumberFormat(s))
  }

  /** The decimal digits of a natural number, without leading zeros. */
  function NatToDigits(n: nat): (d: string)
    decreases n
  {
    if n < 10 then [('0' as int + n) as char]
    else NatToDigits(n / 10) + [('0' as int + n % 10) as char]
  }

  /** `Integer.toString(x)`. */
  function IntToString(x: Int32): string
  {
    if x < 0 then "-" + NatToDigits(-(x as int)) else NatToDigits(x)
  }

  lemma {:induction false} NatToDigitsValue(n: nat)
    ensures NatToDigits(n) != [] && AllDigits(NatToDigits(n))
    ensures DigitsValue(NatToDigits(n)) == n
    decreases n
  {
    var d := NatToDigits(n);
    if n >= 10 {
      NatToDigitsValue(n / 10);
      assert d[..|d| - 1] == NatToDigits(n / 10);
    }
  }

  /** `parseInt` reads back every `int` that `toString` writes. */
  lemma ParseIntOfToString(x: Int32)
    ensures ParseInt(IntToString(x)) == Success(x)
  {
    var s := IntToString(x);
    if x < 0 {
      NatToDigitsValue(-(x as int));
      assert Negative(s) && Unsigned(s) == NatToDigits(-(x as int));
    } else {
      NatToDigitsValue(x);
      assert IsDigit(s[0]) && Unsigned(s) == s;
    }
  }

  /** `parseInt` accepts a plus sign and leading zeros, and rejects a
      trailing non-digit and a lone sign. */
  lemma ParseIntExamples()
    ensures ParseInt("+5") == Success(5)
    ensures ParseInt("-007") == Success(-7)
    ensures ParseInt("1a") == Failure(NumberFormat("1a"))
    ensures ParseInt("-") == Failure(NumberFormat("-"))
  {
    assert Unsigned("+5") == "5";
    assert Unsigned("-007") == "007";
    assert DigitsValue("0") == 0;
    assert DigitsValue("00") == 0;
    assert DigitsValue("007") == 7;
    assert !IsDigit("1a"[1]);
    assert Unsigned("-") == [];
  }

  /** `Boolean.parseBoolean(s)`. */
  function ParseBoolean(s: string): (b: bool)
    ensures b <==> |s| == 4 && LowerAscii(s[0]) == 't' && LowerAscii(s[1]) == 'r' &&
                   LowerAscii(s[2]) == 'u' && LowerAscii(s[3]) == 'e'
  {
    EqualsIgnoreCase(s, "true")
  }

  /** The `set_as_default` flag analysis computes: true exactly when that key
      holds "true" ignoring case; false when the key is absent. */
  function SetAsDefaultValue(p: Props): (b: bool)
    ensures !ContainsKey(p, SET_AS_DEFAULT) ==> !b
    ensures ContainsKey(p, SET_AS_DEFAULT) ==> (b <==> EqualsIgnoreCase(Get(p, SET_AS_DEFAULT).value, "true"))
  {
    ParseBoolean(GetOrDefault(p, SET_AS_DEFAULT, "false"))
  }

  /** The properties an analysed vault keeps: an S3 vault without an exact
      `use_path_style` key gains `use_path_style = true` at the end of the
      map; every other map is kept as it is. */
  function WithPathStyle(t: VaultType, p: Props): (r: Props)
    ensures t != S3 || ContainsKey(p, USE_PATH_STYLE) ==> r == p
    ensures t == S3 ==> Get(r, USE_PATH_STYLE) == if ContainsKey(p, USE_PATH_STYLE) then Get(p, USE_PATH_STYLE) else Some("true")
    ensures |r| >= |p| && r[..|p|] == p
    ensures forall k :: k != USE_PATH_STYLE ==> Get(r, k) == Get(p, k)
  {
    if t == S3 && !ContainsKey(p, USE_PATH_STYLE) then
      var r := p + [(USE_PATH_STYLE, "true")];
      assert forall k :: k != USE_PATH_STYLE ==> Get(r, k) == Get(p, k) by {
        forall k | k != USE_PATH_STYLE ensures Get(r, k) == Get(p, k) {
          GetAppend(p, (USE_PATH_STYLE, "true"), k);
        }
      }
      GetAppend(p, (USE_PATH_STYLE, "true"), USE_PATH_STYLE);
      r
    else p
  }

  lemma {:induction false} GetAppend(p: Props, e: (string, string), k: string)
    ensures Get(p + [e], k) == if Get(p, k).Some? then Get(p, k) else if e.0 == k then Some(e.1) else None
  {
    if p != [] {
      assert (p + [e])[1..] == p[1..] + [e];
      GetAppend(p[1..], e, k);
    }
  }

  lemma WithPathStyleDistinct(t: VaultType, p: Props)
    requires DistinctKeys(p)
    ensures DistinctKeys(WithPathStyle(t, p))
  {
    var r := WithPathStyle(t, p);
    if r != p {
      assert !ContainsKey(p, USE_PATH_STYLE);
    }
  }

  /** The environment analysis consults: the deployment mode, the unit-test
      switch, whether the cloud instance enables storage vaults, whether the
      user holds the global ADMIN privilege, and the error, if any, that the
      vault-name format check raises for this statement's name. */
  datatype Environment = Environment(cloudMode: bool, runningUnitTest: bool, enableStorageVault: bool,
                                     adminPriv: bool, nameError: Option<string>)

  /** The checks analysis makes before it looks at the properties, in order. */
  function EnvironmentError(env: Environment): (e: Option<AnalysisError>)
    ensures e.None? <==> env.cloudMode && (env.runningUnitTest || env.enableStorageVault) &&
                         env.adminPriv && env.nameError.None?
    ensures !env.cloudMode ==> e == Some(AnalysisException(CLOUD_ONLY))
  {
    if !env.cloudMode then Some(AnalysisException(CLOUD_ONLY))
    else if !env.runningUnitTest && !env.enableStorageVault then Some(AnalysisException(VAULT_DISABLED))
    else if !env.adminPriv then Some(AccessDenied("ADMIN"))
    else if env.nameError.Some? then Some(AnalysisException(env.nameError.value))
    else None
  }

  /** What one run of analysis does: the exception it ends with, if any,
      and the value it assigns to each field (`None`: the field is left
      alone). */
  datatype Effect = Effect(thrown: Option<AnalysisError>, pathVersion: Option<Int32>, numShard: Option<Int32>,
                           setAsDefault: Option<bool>, vaultType: Option<VaultType>, properties: Option<Props>)

  function Throws(e: AnalysisError): Effect
  {
    Effect(Some(e), None, None, None, None, None)
  }

  /** The effect of `analyze` on a statement with these properties. The
      properties are immutable, so the `remove` that follows a successful
      parse of `path_version` or `shard_num` throws. */
  function AnalyzeEffect(env: Environment, p: Props, fromString: string -> VaultType): (e: Effect)
    ensures EnvironmentError(env).Some? ==> e == Throws(EnvironmentError(env).value)
    ensures EnvironmentError(env).None? && p == [] ==> e == Throws(AnalysisException(NULL_PROPERTIES))
    ensures EnvironmentError(env).None? && p != [] && TypeValue(p).None? ==>
              e == Throws(AnalysisException(MISSING_TYPE))
    ensures EnvironmentError(env).None? && p != [] && TypeValue(p) == Some("") ==>
              e == Throws(AnalysisException(EMPTY_TYPE))
    ensures EnvironmentError(env).None? && TypeValue(p).Some? && TypeValue(p).value != "" &&
            !ContainsKey(p, PATH_VERSION) && !ContainsKey(p, SHARD_NUM) && fromString(TypeValue(p).value) == UNKNOWN ==>
              && e.thrown == Some(AnalysisException(UNSUPPORTED_UNKNOWN))
              && e.setAsDefault == Some(SetAsDefaultValue(p)) && e.vaultType.None? && e.properties.None?
    ensures e.vaultType.Some? ==> e.vaultType.value != UNKNOWN
    ensures e.pathVersion.Some? ==> e.thrown == Some(UnsupportedOperation)
    ensures e.numShard.Some? ==> e.thrown == Some(UnsupportedOperation) && e.pathVersion.None?
  {
    if EnvironmentError(env).Some? then Throws(EnvironmentError(env).value)
    else if p == [] then Throws(AnalysisException(NULL_PROPERTIES))
    else match TypeValue(p)
      case None => Throws(AnalysisException(MISSING_TYPE))
      case Some(t) =>
        if t == "" then Throws(AnalysisException(EMPTY_TYPE))
        else if ContainsKey(p, PATH_VERSION) then
          match ParseInt(Get(p, PATH_VERSION).value)
          case Failure(err) => Throws(err)
          case Success(n) => Effect(Some(UnsupportedOperation), Some(n), None, None, None, None)
        else if ContainsKey(p, SHARD_NUM) then
          match ParseInt(Get(p, SHARD_NUM).value)
          case Failure(err) => Throws(err)
          case Success(n) => Effect(Some(UnsupportedOperation), None, Some(n), None, None, None)
        else
          var vt := fromString(t);
          if vt == UNKNOWN then
            Effect(Some(AnalysisException(UNSUPPORTED_UNKNOWN)), None, None, Some(SetAsDefaultValue(p)), None, None)
          else
            Effect(None, None, None, Some(SetAsDefaultValue(p)), Some(vt), Some(WithPathStyle(vt, p)))
  }

  /** Analysis succeeds exactly when the environment allows it, the map is
      non-empty, the last `type` entry is non-empty and names a known
      backend, and neither `path_version` nor `shard_num` is present; it
      then sets the type and the default flag, and defaults the path style
      of an S3 vault. */
  lemma AnalyzeSucceeds(env: Environment, p: Props, fromString: string -> VaultType)
    ensures var e := AnalyzeEffect(env, p, fromString);
            e.thrown.None? <==>
              && EnvironmentError(env).None? && p != []
              && TypeValue(p).Some? && TypeValue(p).value != ""
              && !ContainsKey(p, PATH_VERSION) && !ContainsKey(p, SHARD_NUM)
              && fromString(TypeValue(p).value) != UNKNOWN
    ensures var e := AnalyzeEffect(env, p, fromString);
            e.thrown.None? ==>
              && e.vaultType == Some(fromString(TypeValue(p).value))
              && e.setAsDefault == Some(SetAsDefaultValue(p))
              && e.properties == Some(WithPathStyle(fromString(TypeValue(p).value), p))
              && e.pathVersion.None? && e.numShard.None?
  {
  }

  /** A present `path_version` is parsed and assigned before the `remove`
      throws; one that does not parse throws `NumberFormat` and assigns
      nothing. */
  lemma PathVersionAssignedThenRemoveThrows(env: Environment, p: Props, fromString: string -> VaultType)
    requires EnvironmentError(env).None? && TypeValue(p).Some? && TypeValue(p).value != ""
    requires ContainsKey(p, PATH_VERSION)
    ensures var e := AnalyzeEffect(env, p, fromString);
            match ParseInt(Get(p, PATH_VERSION).value)
            case Success(n) => e.pathVersion == Some(n) && e.thrown == Some(UnsupportedOperation)
            case Failure(_) => e.pathVersion.None? && e.thrown == Some(NumberFormat(Get(p, PATH_VERSION).value))
  {
    assert p != [];
  }

  /** Without `path_version`, a present `shard_num` is parsed and assigned
      before the `remove` throws; one that does not parse throws
      `NumberFormat` and assigns nothing. */
  lemma ShardNumAssignedThenRemoveThrows(env: Environment, p: Props, fromString: string -> VaultType)
    requires EnvironmentError(env).None? && TypeValue(p).Some? && TypeValue(p).value != ""
    requires !ContainsKey(p, PATH_VERSION) && ContainsKey(p, SHARD_NUM)
    ensures var e := AnalyzeEffect(env, p, fromString);
            match ParseInt(Get(p, SHARD_NUM).value)
            case Success(n) => e.numShard == Some(n) && e.pathVersion.None? && e.thrown == Some(UnsupportedOperation)
            case Failure(_) => e.numShard.None? && e.thrown == Some(NumberFormat(Get(p, SHARD_NUM).value))
  {
    assert p != [];
  }

  /** The loop of `analyze` over the entries, in iteration order, that
      keeps the value of each entry whose key matches `type` ignoring case. */
  method FindType(p: Props) returns (t: Option<string>)
    ensures t == TypeValue(p)
  {
    t := None;
    var i := 0;
    while i < |p|
      invariant 0 <= i <= |p|
      invariant t == TypeValue(p[..i])
    {
      assert p[..i + 1][..i] == p[..i];
      if EqualsIgnoreCase(p[i].0, TYPE) {
        t := Some(p[i].1);
      }
      i := i + 1;
    }
    assert p[..i] == p;
  }

  class CreateStorageVaultStmt {
    const ifNotExists: bool
    const vaultName: string
    var properties: Props
    var setAsDefault: bool
    var pathVersion: Int32
    var numShard: Int32
    var vaultType: VaultType

    ghost predicate Valid()
      reads this
    {
      DistinctKeys(properties)
    }

    /** The statement as parsed: an immutable copy of the properties, no type
        yet, both numeric options 0. */
    constructor (ifNotExists: bool, vaultName: string, properties: Props)
      requires DistinctKeys(properties)
      ensures Valid()
      ensures this.ifNotExists == ifNotExists && this.vaultName == vaultName && this.properties == properties
      ensures vaultType == UNKNOWN && pathVersion == 0 && numShard == 0 && !setAsDefault
    {
      this.ifNotExists := ifNotExists;
      this.vaultName := vaultName;
      this.properties := properties;
      this.vaultType := UNKNOWN;
      pathVersion, numShard, setAsDefault := 0, 0, false;
    }

    /** `setStorageVaultType`: UNKNOWN is rejected and the type kept; any
        other type is stored. */
    method SetStorageVaultType(t: VaultType) returns (thrown: Option<AnalysisError>)
      modifies this
      ensures t == UNKNOWN ==> thrown == Some(AnalysisException(UNSUPPORTED_UNKNOWN)) && vaultType == old(vaultType)
      ensures t != UNKNOWN ==> thrown == None && vaultType == t
      ensures properties == old(properties) && setAsDefault == old(setAsDefault)
      ensures pathVersion == old(pathVersion) && numShard == old(numShard)
    {
      if t == UNKNOWN {
        return Some(AnalysisException(UNSUPPORTED_UNKNOWN));
      }
      vaultType := t;
      thrown := None;
    }

    /** `analyze`: the run `AnalyzeEffect` describes, field by field. */
    method Analyze(env: Environment, fromString: string -> VaultType) returns (thrown: Option<AnalysisError>)
      requires Valid()
      modifies this
      ensures Valid()
      ensures var e := AnalyzeEffect(env, old(properties), fromString);
              && thrown == e.thrown
              && pathVersion == (if e.pathVersion.Some? then e.pathVersion.value else old(pathVersion))
              && numShard == (if e.numShard.Some? then e.numShard.value else old(numShard))
              && setAsDefault == (if e.setAsDefault.Some? then e.setAsDefault.value else old(setAsDefault))
              && vaultType == (if e.vaultType.Some? then e.vaultType.value else old(vaultType))
              && properties == (if e.properties.Some? then e.properties.value else old(properties))
    {
      if !env.cloudMode {
        return Some(AnalysisException(CLOUD_ONLY));
      }
      if !env.runningUnitTest && !env.enableStorageVault {
        return Some(AnalysisException(VAULT_DISABLED));
      }
      if !env.adminPriv {
        return Some(AccessDenied("ADMIN"));
      }
      if env.nameError.Some? {
        return Some(AnalysisException(env.nameError.value));
      }
      if |properties| == 0 {
        return Some(AnalysisException(NULL_PROPERTIES));
      }

      var t := FindType(properties);
      if t.None? {
        return Some(AnalysisException(MISSING_TYPE));
      }
      if t.value == "" {
        return Some(AnalysisException(EMPTY_TYPE));
      }

      var pathVersionString := Get(properties, PATH_VERSION);
      if pathVersionString.Some? {
        var n := ParseInt(pathVersionString.value);
        if n.Failure? {
          return Some(n.error);
        }
        pathVersion := n.value;
        return Some(UnsupportedOperation);
      }
      var numShardString := Get(properties, SHARD_NUM);
      if numShardString.Some? {
        var n := ParseInt(numShardString.value);
        if n.Failure? {
          return Some(n.error);
        }
        numShard := n.value;
        return Some(UnsupportedOperation);
      }
      setAsDefault := ParseBoolean(GetOrDefault(properties, SET_AS_DEFAULT, "false"));
      thrown := SetStorageVaultType(fromString(t.value));
      if thrown.Some? {
        return;
      }
      WithPathStyleDistinct(vaultType, properties);
      if vaultType == S3 && !ContainsKey(properties, USE_PATH_STYLE) {
        properties := properties + [(USE_PATH_STYLE, "true")];
      }
    }

    /** `toSql`, with the properties rendered by `printMap` (`PrintableMap`). */
    function ToSql(printMap: Props -> string): (r: string)
      reads this
      ensures |r| == |SqlHeader(vaultName)| + |printMap(properties)| + 1
      ensures r[..|SqlHeader(vaultName)|] == SqlHeader(vaultName)
      ensures r[|SqlHeader(vaultName)|..|r| - 1] == printMap(properties)
      ensures r[|r| - 1] == ')'
    {
      SqlHeader(vaultName) + printMap(properties) + ")"
    }
  }

  /** The text `toSql` puts before the properties. */
  function SqlHeader(name: string): string
  {
    "CREATE STORAGE VAULT '" + name + "' PROPERTIES("
  }

  const SQL_PREFIX := "CREATE STORAGE VAULT '"

  /** Reads the vault name back from a statement's text: the characters
      after the opening quote up to the next quote. */
  function QuotedName(sql: string): Option<string>
  {
    if |sql| < |SQL_PREFIX| || sql[..|SQL_PREFIX|] != SQL_PREFIX then None
    else UpToQuote(sql[|SQL_PREFIX|..])
  }

  function UpToQuote(s: string): Option<string>
  {
    if s == [] then None
    else if s[0] == '\'' then Some([])
    else match UpToQuote(s[1..])
      case Some(rest) => Some([s[0]] + rest)
      case None => None
  }

  lemma {:induction false} UpToQuoteOfQuoted(name: string, tail: string)
    requires '\'' !in name
    ensures UpToQuote(name + "'" + tail) == Some(name)
  {
    var s := name + "'" + tail;
    if name == [] {
      assert s[0] == '\'';
    } else {
      assert s[0] == name[0] && name[0] != '\'';
      assert s[1..] == name[1..] + "'" + tail;
      assert name == [name[0]] + name[1..];
      UpToQuoteOfQuoted(name[1..], tail);
    }
  }

  /** The name is recoverable from the statement text whenever it holds no
      quote, whatever the properties render to. */
  lemma ToSqlNameRoundTrip(stmt: CreateStorageVaultStmt, printMap: Props -> string)
    requires '\'' !in stmt.vaultName
    ensures QuotedName(stmt.ToSql(printMap)) == Some(stmt.vaultName)
  {
    var r := stmt.ToSql(printMap);
    var tail := " PROPERTIES(" + printMap(stmt.properties) + ")";
    assert r == SQL_PREFIX + (stmt.vaultName + "'" + tail);
    UpToQuoteOfQuoted(stmt.vaultName, tail);
  }

  /** The example `{type: "S3", path_version: "1"}` does not
      validate: `path_version` is parsed and assigned, then removing it from
      the immutable map throws, before the type is set. */
  method PathVersionExample(fromString: string -> VaultType)
    returns (thrown: Option<AnalysisError>, pathVersion: Int32, vaultType: VaultType)
    ensures thrown == Some(UnsupportedOperation)
    ensures pathVersion == 1 && vaultType == UNKNOWN
  {
    var p: Props := [(TYPE, "S3"), (PATH_VERSION, "1")];
    var stmt := new CreateStorageVaultStmt(false, "vault", p);
    var env := Environment(true, false, true, true, None);
    assert TypeValue(p) == Some("S3");
    assert Get(p, PATH_VERSION) == Some("1");
    assert DigitsValue("1") == 1;
    thrown := stmt.Analyze(env, fromString);
    pathVersion, vaultType := stmt.pathVersion, stmt.vaultType;
  }

  /** An S3 vault declared with a differently-cased `TYPE` key and
      `set_as_default = True` validates, is the default, and gains the
      path-style flag. */
  /** The effect of analysing the S3 example below. */
  lemma S3ExampleEffect(p: Props, env: Environment, fromString: string -> VaultType)
    requires p == [("TYPE", "s3"), (SET_AS_DEFAULT, "True")]
    requires env == Environment(true, true, false, true, None)
    requires fromString("s3") == S3
    ensures AnalyzeEffect(env, p, fromString) ==
              Effect(None, None, None, Some(true), Some(S3), Some(p + [(USE_PATH_STYLE, "true")]))
  {
    assert EqualsIgnoreCase("TYPE", TYPE);
    assert TypeValue(p) == Some("s3");
    assert Get(p, SET_AS_DEFAULT) == Some("True");
    assert SetAsDefaultValue(p);
    assert !ContainsKey(p, PATH_VERSION) && !ContainsKey(p, SHARD_NUM) && !ContainsKey(p, USE_PATH_STYLE);
  }

  /** An S3 vault declared with a differently-cased `TYPE` key and
      `set_as_default = True` validates, is the default, and gains the
      path-style flag. */
  method S3Example(fromString: string -> VaultType)
    returns (thrown: Option<AnalysisError>, vaultType: VaultType, setAsDefault: bool, properties: Props)
    requires fromString("s3") == S3
    ensures thrown == None && vaultType == S3 && setAsDefault
    ensures properties == [("TYPE", "s3"), (SET_AS_DEFAULT, "True"), (USE_PATH_STYLE, "true")]
  {
    var p: Props := [("TYPE", "s3"), (SET_AS_DEFAULT, "True")];
    var stmt := new CreateStorageVaultStmt(false, "vault", p);
    var env := Environment(true, true, false, true, None);
    S3ExampleEffect(p, env, fromString);
    thrown := stmt.Analyze(env, fromString);
    vaultType, setAsDefault, properties := stmt.vaultType, stmt.setAsDefault, stmt.properties;
  }
}

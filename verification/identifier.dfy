/**
 * The asset tool's identifier generation: a file path becomes an upper-case
 * Rust constant name built from its immediate parent directory and its file
 * stem, each sanitised character by character; a list of paths is rejected
 * when two of them produce the same name.
 *
 * Character classes are the ASCII ones; the Unicode classes of Rust's
 * `is_alphabetic`, `is_numeric` and `to_uppercase` agree with them on ASCII.
 */
module Identifier {
  import opened Wrappers

  // ---------------------------------------------------------------------
  // Characters

  predicate IsAlpha(c: char) {
    'a' <= c <= 'z' || 'A' <= c <= 'Z'
  }

  predicate IsDigit(c: char) {
    '0' <= c <= '9'
  }

  /** A character Rust accepts inside an identifier. */
  predicate IsIdentChar(c: char) {
    IsAlpha(c) || IsDigit(c) || c == '_'
  }

  /** A non-empty string that starts with a letter or `_` and continues with identifier characters. */
  predicate IsIdent(s: string) {
    |s| > 0 && (IsAlpha(s[0]) || s[0] == '_') && forall i :: 0 <= i < |s| ==> IsIdentChar(s[i])
  }

  function UpperChar(c: char): char {
    if 'a' <= c <= 'z' then c - 'a' + 'A' else c
  }

  /** `to_uppercase` on ASCII: lower-case letters become upper-case, every other character is kept. */
  function Upper(s: string): (r: string)
    ensures |r| == |s|
    ensures forall i :: 0 <= i < |s| ==> !('a' <= r[i] <= 'z')
    ensures forall i :: 0 <= i < |s| ==> ('a' <= s[i] <= 'z' <==> r[i] != s[i])
    ensures forall i :: 0 <= i < |s| ==> (IsAlpha(r[i]) <==> IsAlpha(s[i])) && (IsIdentChar(r[i]) <==> IsIdentChar(s[i]))
  {
    seq(|s|, i requires 0 <= i < |s| => UpperChar(s[i]))
  }

  // ---------------------------------------------------------------------
  // Sanitising

  /** The replacement for the first character: kept if a letter or `_`, prefixed by `_` if a digit, else `_`. */
  function SanitizeFirst(c: char): string {
    if IsAlpha(c) || c == '_' then [c]
    else if IsDigit(c) then ['_', c]
    else "_"
  }

  /** The replacement for every later character: kept if an identifier character, else `_`. */
  function SanitizeRest(c: char): char {
    if IsIdentChar(c) then c else '_'
  }

  /** sanitize_to_rust_ident. */
  function Sanitize(s: string): (r: string)
    ensures |s| == 0 ==> r == "ASSET"
    ensures |s| > 0 ==> |r| == |s| + (if IsDigit(s[0]) then 1 else 0)
  {
    if |s| == 0 then "ASSET"
    else SanitizeFirst(s[0]) + seq(|s| - 1, i requires 0 <= i < |s| - 1 => SanitizeRest(s[i + 1]))
  }

  /** Whatever the input, the result is a valid identifier. */
  lemma SanitizeIsIdent(s: string)
    ensures IsIdent(Sanitize(s))
  {
  }

  /**
   * After the first character (and the `_` a leading digit gets), each input
   * character is itself when it is an identifier character and `_` otherwise.
   */
  lemma SanitizeKeepsPositions(s: string, i: nat)
    requires 0 < i < |s|
    ensures var shift := if IsDigit(s[0]) then 1 else 0;
      Sanitize(s)[i + shift] == (if IsIdentChar(s[i]) then s[i] else '_')
  {
  }

  /** A string that is already an identifier is its own sanitisation. */
  lemma SanitizeFixesIdents(s: string)
    requires IsIdent(s)
    ensures Sanitize(s) == s
  {
    assert Sanitize(s) == [s[0]] + s[1..];
  }

  /** Sanitising twice is sanitising once. */
  lemma SanitizeIdempotent(s: string)
    ensures Sanitize(Sanitize(s)) == Sanitize(s)
  {
    SanitizeIsIdent(s);
    SanitizeFixesIdents(Sanitize(s));
  }

  /** A string starting with a letter or `_` sanitises character by character. */
  lemma SanitizeIs(s: string, t: string)
    requires |s| > 0 && (IsAlpha(s[0]) || s[0] == '_') && |t| == |s| && t[0] == s[0]
    requires forall i :: 1 <= i < |s| ==> t[i] == SanitizeRest(s[i])
    ensures Sanitize(s) == t
  {
    var r := Sanitize(s);
    assert SanitizeFirst(s[0]) == [s[0]];
    forall i | 0 <= i < |s|
      ensures r[i] == t[i]
    {
      if i > 0 {
        SanitizeKeepsPositions(s, i);
      }
    }
  }

  /** Names that are already identifiers pass through. */
  lemma SanitizeKeepsExamples()
    ensures Sanitize("player") == "player"
    ensures Sanitize("my_texture") == "my_texture"
  {
    SanitizeFixesIdents("player");
    SanitizeFixesIdents("my_texture");
  }

  /** Punctuation becomes `_`. */
  lemma SanitizeReplacesExamples()
    ensures Sanitize("my-texture") == "my_texture"
    ensures Sanitize("button@hover") == "button_hover"
    ensures Sanitize("foo.bar") == "foo_bar"
  {
    SanitizeIs("my-texture", "my_texture");
    SanitizeIs("button@hover", "button_hover");
    SanitizeIs("foo.bar", "foo_bar");
  }

  /** A leading digit gets a `_` in front. */
  lemma SanitizeLeadingDigitExample()
    ensures Sanitize("3d-cube") == "_3d_cube"
  {
    assert Sanitize("3d-cube") == "_3" + "d_cube";
  }

  // ---------------------------------------------------------------------
  // Paths

  /** A relative path as its normal components, outermost first; each component a non-empty name. */
  datatype AssetPath = AssetPath(components: seq<string>)

  datatype AssetError =
    | Validation(path: AssetPath)
    | IdentifierCollision(identifier: string, pathA: AssetPath, pathB: AssetPath)

  /** The position of the last `c` in `s`. */
  function LastIndexOf(s: string, c: char): (r: Option<nat>)
    ensures r.Some? ==> r.value < |s| && s[r.value] == c && forall j :: r.value < j < |s| ==> s[j] != c
    ensures r.None? ==> forall j :: 0 <= j < |s| ==> s[j] != c
  {
    if |s| == 0 then None
    else if s[|s| - 1] == c then Some(|s| - 1)
    else LastIndexOf(s[..|s| - 1], c)
  }

  lemma LastIndexAt(s: string, c: char, i: nat)
    requires i < |s| && s[i] == c && forall j :: i < j < |s| ==> s[j] != c
    ensures LastIndexOf(s, c) == Some(i)
  {
  }

  /**
   * `Path::file_stem` of a file name: everything before the last `.`,
   * unless that `.` is the first character or there is none.
   */
  function FileStem(name: string): (r: string)
    ensures |r| <= |name| && r == name[..|r|]
    ensures |name| > 0 ==> |r| > 0
  {
    match LastIndexOf(name, '.')
    case Some(i) => if i > 0 then name[..i] else name
    case None => name
  }

  /** The last component's stem, when the path has a last component. */
  function Stem(path: AssetPath): Option<string> {
    if |path.components| == 0 then None else Some(FileStem(path.components[|path.components| - 1]))
  }

  /** The name of the immediate parent directory, when there is one. */
  function ParentName(path: AssetPath): Option<string> {
    if |path.components| < 2 then None else Some(path.components[|path.components| - 2])
  }

  /** The identifier before upper-casing: the sanitised parent, `_` and the sanitised stem; or the sanitised stem alone. */
  function Joined(parent: Option<string>, stem: string): string {
    match parent
    case Some(p) => Sanitize(p) + "_" + Sanitize(stem)
    case None => Sanitize(stem)
  }

  /** generate_identifier. */
  function GenerateIdentifier(path: AssetPath): (r: Result<string, AssetError>)
    ensures r.Failure? <==> Stem(path).None?
    ensures r.Failure? ==> r.error == Validation(path)
  {
    match Stem(path)
    case None => Failure(Validation(path))
    case Some(stem) => Success(Upper(Joined(ParentName(path), stem)))
  }

  /** An identifier with no lower-case letter. */
  predicate IsUpperIdent(s: string) {
    IsIdent(s) && forall i :: 0 <= i < |s| ==> !('a' <= s[i] <= 'z')
  }

  lemma UpperIdent(s: string)
    requires IsIdent(s)
    ensures IsUpperIdent(Upper(s))
  {
  }

  /** The joined parts form an identifier. */
  lemma JoinedIsIdent(parent: Option<string>, stem: string)
    ensures IsIdent(Joined(parent, stem))
  {
    SanitizeIsIdent(stem);
    if parent.Some? {
      SanitizeIsIdent(parent.value);
      IdentJoin(Sanitize(parent.value), Sanitize(stem));
    }
  }

  /** Two identifiers joined by `_` form an identifier. */
  lemma IdentJoin(p: string, t: string)
    requires IsIdent(p) && IsIdent(t)
    ensures IsIdent(p + "_" + t)
  {
    var j := p + "_" + t;
    assert j[0] == p[0];
    forall i | 0 <= i < |j|
      ensures IsIdentChar(j[i])
    {
      if i < |p| {
        assert j[i] == p[i];
      } else if i == |p| {
        assert j[i] == '_';
      } else {
        assert j[i] == t[i - |p| - 1];
      }
    }
  }

  /** Every generated name is a valid upper-case Rust identifier. */
  lemma GenerateIdentifierIsUpperIdent(path: AssetPath)
    ensures GenerateIdentifier(path).Success? ==> IsUpperIdent(GenerateIdentifier(path).value)
  {
    if Stem(path).Some? {
      JoinedIsIdent(ParentName(path), Stem(path).value);
      UpperIdent(Joined(ParentName(path), Stem(path).value));
    }
  }

  lemma UpperAppend(a: string, b: string)
    ensures Upper(a + b) == Upper(a) + Upper(b)
  {
  }

  lemma UpperJoin(p: string, t: string)
    ensures Upper(p + "_" + t) == Upper(p) + "_" + Upper(t)
  {
    UpperAppend(p + "_", t);
    UpperAppend(p, "_");
    assert Upper("_") == "_";
  }

  /** With a parent directory: its upper-cased sanitised name, `_`, the upper-cased sanitised stem. */
  lemma GenerateWithParent(path: AssetPath, parent: string, stem: string)
    requires ParentName(path) == Some(parent) && Stem(path) == Some(stem)
    ensures GenerateIdentifier(path) == Success(Upper(Sanitize(parent)) + "_" + Upper(Sanitize(stem)))
  {
    UpperJoin(Sanitize(parent), Sanitize(stem));
  }

  /** Without a parent directory: the upper-cased sanitised stem alone. */
  lemma GenerateWithoutParent(path: AssetPath, stem: string)
    requires ParentName(path) == None && Stem(path) == Some(stem)
    ensures GenerateIdentifier(path) == Success(Upper(Sanitize(stem)))
  {
  }

  lemma UpperIs(s: string, t: string)
    requires |t| == |s| && forall i :: 0 <= i < |s| ==> t[i] == UpperChar(s[i])
    ensures Upper(s) == t
  {
  }

  /** The stem of a file name whose last `.` is at position `|stem| > 0`. */
  lemma FileStemIs(name: string, stem: string)
    requires 0 < |stem| < |name| && name[|stem|] == '.' && forall j :: |stem| < j < |name| ==> name[j] != '.'
    requires forall j :: 0 <= j < |stem| ==> stem[j] == name[j]
    ensures FileStem(name) == stem
  {
    LastIndexAt(name, '.', |stem|);
    assert name[..|stem|] == stem;
  }

  /** An identifier from a path ending in a directory and a file whose parts are already known. */
  lemma GenerateFromParts(dirs: seq<string>, parent: string, file: string, stem: string,
                          upperParent: string, upperStem: string, expected: string)
    requires FileStem(file) == stem && Upper(Sanitize(parent)) == upperParent && Upper(Sanitize(stem)) == upperStem
    requires upperParent + "_" + upperStem == expected
    ensures GenerateIdentifier(AssetPath(dirs + [parent, file])) == Success(expected)
  {
    var path := AssetPath(dirs + [parent, file]);
    var n := |path.components|;
    assert path.components[n - 2] == parent && path.components[n - 1] == file;
    assert ParentName(path) == Some(parent) && Stem(path) == Some(stem);
    GenerateWithParent(path, parent, stem);
  }

  /** An identifier, upper-cased, that sanitising leaves alone. */
  lemma UpperSanitizedIdent(s: string, u: string)
    requires IsIdent(s) && |u| == |s| && forall i :: 0 <= i < |s| ==> u[i] == UpperChar(s[i])
    ensures Upper(Sanitize(s)) == u
  {
    SanitizeFixesIdents(s);
    UpperIs(s, u);
  }

  lemma UpperTextures()
    ensures Upper(Sanitize("textures")) == "TEXTURES"
  {
    UpperSanitizedIdent("textures", "TEXTURES");
  }

  lemma UpperPlayer()
    ensures Upper(Sanitize("player")) == "PLAYER"
  {
    UpperSanitizedIdent("player", "PLAYER");
  }

  lemma StemPlayer()
    ensures FileStem("player.png") == "player"
  {
    FileStemIs("player.png", "player");
  }

  /** A path with a parent directory: `textures/player.png`. */
  lemma GenerateIdentifierWithParentExample()
    ensures GenerateIdentifier(AssetPath(["textures", "player.png"])) == Success("TEXTURES_PLAYER")
  {
    StemPlayer();
    UpperTextures();
    UpperPlayer();
    GenerateFromParts([], "textures", "player.png", "player", "TEXTURES", "PLAYER", "TEXTURES_PLAYER");
    assert [] + ["textures", "player.png"] == ["textures", "player.png"];
  }

  lemma UpperCube()
    ensures FileStem("cube.obj") == "cube" && Upper(Sanitize("cube")) == "CUBE"
  {
    FileStemIs("cube.obj", "cube");
    UpperSanitizedIdent("cube", "CUBE");
  }

  /** A bare file name: `cube.obj`. */
  lemma GenerateIdentifierWithoutParentExample()
    ensures GenerateIdentifier(AssetPath(["cube.obj"])) == Success("CUBE")
  {
    UpperCube();
    var path := AssetPath(["cube.obj"]);
    assert ParentName(path) == None && Stem(path) == Some("cube");
    GenerateWithoutParent(path, "cube");
  }

  lemma ButtonHover()
    ensures FileStem("button-hover.png") == "button-hover"
    ensures Upper(Sanitize("button-hover")) == "BUTTON_HOVER"
  {
    FileStemIs("button-hover.png", "button-hover");
    SanitizeIs("button-hover", "button_hover");
    UpperIs("button_hover", "BUTTON_HOVER");
  }

  lemma UpperUi()
    ensures Upper(Sanitize("ui")) == "UI"
  {
    UpperSanitizedIdent("ui", "UI");
  }

  /** Punctuation in the stem: `ui/button-hover.png`. */
  lemma GenerateIdentifierSpecialCharsExample()
    ensures GenerateIdentifier(AssetPath(["ui", "button-hover.png"])) == Success("UI_BUTTON_HOVER")
  {
    ButtonHover();
    UpperUi();
    GenerateFromParts([], "ui", "button-hover.png", "button-hover", "UI", "BUTTON_HOVER", "UI_BUTTON_HOVER");
    assert [] + ["ui", "button-hover.png"] == ["ui", "button-hover.png"];
  }

  lemma UpperCharacters()
    ensures Upper(Sanitize("characters")) == "CHARACTERS"
  {
    UpperSanitizedIdent("characters", "CHARACTERS");
  }

  /** Only the immediate parent counts: `assets/textures/characters/player.png`. */
  lemma GenerateIdentifierNestedExample()
    ensures GenerateIdentifier(AssetPath(["assets", "textures", "characters", "player.png"])) == Success("CHARACTERS_PLAYER")
  {
    StemPlayer();
    UpperCharacters();
    UpperPlayer();
    GenerateFromParts(["assets", "textures"], "characters", "player.png", "player", "CHARACTERS", "PLAYER", "CHARACTERS_PLAYER");
    assert ["assets", "textures"] + ["characters", "player.png"] == ["assets", "textures", "characters", "player.png"];
  }

  // ---------------------------------------------------------------------
  // Collisions

  /** How paths become identifiers; the scan below is written for any such map. */
  type Namer = AssetPath -> Result<string, AssetError>

  /** The first `n` paths all produce identifiers, and no two of those are equal. */
  ghost predicate Clean(name: Namer, paths: seq<AssetPath>, n: nat)
    requires n <= |paths|
  {
    (forall j :: 0 <= j < n ==> name(paths[j]).Success?)
    && forall i, j :: 0 <= i < j < n ==> name(paths[i]) != name(paths[j])
  }

  /**
   * Given that the earlier paths are clean, the error `e` is the one the
   * scan reports at path `j`: its identifier error, or a collision with the
   * earlier path that produced the same identifier.
   */
  ghost predicate FailsAt(name: Namer, paths: seq<AssetPath>, j: nat, e: AssetError)
    requires j < |paths|
  {
    match name(paths[j])
    case Failure(err) => e == err
    case Success(id) =>
      exists i :: 0 <= i < j && name(paths[i]) == Success(id) && e == IdentifierCollision(id, paths[i], paths[j])
  }

  /** check_collisions: the paths are scanned in order and the first problem is reported. */
  method CheckCollisions(paths: seq<AssetPath>) returns (r: Result<(), AssetError>)
    ensures r.Success? <==> Clean(GenerateIdentifier, paths, |paths|)
    ensures r.Failure? ==>
      exists j :: 0 <= j < |paths| && Clean(GenerateIdentifier, paths, j) && FailsAt(GenerateIdentifier, paths, j, r.error)
  {
    r := CheckCollisionsWith(GenerateIdentifier, paths);
  }

  /** The scan of check_collisions for a given path-to-identifier map. */
  method CheckCollisionsWith(name: Namer, paths: seq<AssetPath>) returns (r: Result<(), AssetError>)
    ensures r.Success? <==> Clean(name, paths, |paths|)
    ensures r.Failure? ==> exists j :: 0 <= j < |paths| && Clean(name, paths, j) && FailsAt(name, paths, j, r.error)
  {
    var seen: map<string, AssetPath> := map[];
    ghost var first: map<string, nat> := map[];
    for k := 0 to |paths|
      invariant Clean(name, paths, k)
      invariant seen.Keys == first.Keys
      invariant forall j :: 0 <= j < k ==> name(paths[j]).value in first && first[name(paths[j]).value] == j
      invariant forall id :: id in first ==>
        first[id] < k && name(paths[first[id]]) == Success(id) && seen[id] == paths[first[id]]
    {
      var path := paths[k];
      var ident := name(path);
      if ident.Failure? {
        assert FailsAt(name, paths, k, ident.error);
        return Failure(ident.error);
      }
      if ident.value in seen {
        var previous := seen[ident.value];
        assert FailsAt(name, paths, k, IdentifierCollision(ident.value, previous, path));
        return Failure(IdentifierCollision(ident.value, previous, path));
      }
      seen := seen[ident.value := path];
      first := first[ident.value := k];
    }
    return Success(());
  }

  lemma FooAtBar()
    ensures FileStem("foo@bar.png") == "foo@bar" && Upper(Sanitize("foo@bar")) == "FOO_BAR"
  {
    FileStemIs("foo@bar.png", "foo@bar");
    SanitizeIs("foo@bar", "foo_bar");
    UpperIs("foo_bar", "FOO_BAR");
  }

  lemma FooBar()
    ensures FileStem("foo_bar.png") == "foo_bar" && Upper(Sanitize("foo_bar")) == "FOO_BAR"
  {
    FileStemIs("foo_bar.png", "foo_bar");
    UpperSanitizedIdent("foo_bar", "FOO_BAR");
  }

  /** `textures/foo@bar.png` and `textures/foo_bar.png` both become `TEXTURES_FOO_BAR`. */
  lemma CollidingIdentifiers()
    ensures GenerateIdentifier(AssetPath(["textures", "foo@bar.png"])) == Success("TEXTURES_FOO_BAR")
    ensures GenerateIdentifier(AssetPath(["textures", "foo_bar.png"])) == Success("TEXTURES_FOO_BAR")
  {
    UpperTextures();
    FooAtBar();
    FooBar();
    GenerateFromParts([], "textures", "foo@bar.png", "foo@bar", "TEXTURES", "FOO_BAR", "TEXTURES_FOO_BAR");
    GenerateFromParts([], "textures", "foo_bar.png", "foo_bar", "TEXTURES", "FOO_BAR", "TEXTURES_FOO_BAR");
    assert [] + ["textures", "foo@bar.png"] == ["textures", "foo@bar.png"];
    assert [] + ["textures", "foo_bar.png"] == ["textures", "foo_bar.png"];
  }

  /** So a list holding both is not clean, and the scan reports the second against the first. */
  lemma CollisionExample()
    ensures var paths := [AssetPath(["textures", "foo@bar.png"]), AssetPath(["textures", "foo_bar.png"])];
      !Clean(GenerateIdentifier, paths, 2)
      && Clean(GenerateIdentifier, paths, 1)
      && FailsAt(GenerateIdentifier, paths, 1, IdentifierCollision("TEXTURES_FOO_BAR", paths[0], paths[1]))
  {
    var paths := [AssetPath(["textures", "foo@bar.png"]), AssetPath(["textures", "foo_bar.png"])];
    CollidingIdentifiers();
    var name: Namer := GenerateIdentifier;
    assert name(paths[0]) == name(paths[1]);
  }
}

/** Typed stanzas and their paragraphs: which fields are written, how they are looked up again
    without regard to case, and exactly which stanzas come back as they were. */
module Stanzas {
  import opened Text
  import opened Deb822

  // ----- the records -----

  datatype Control = Control(
    package: string, version: string, architecture: string, maintainer: string,
    installedSize: int, section: string, priority: string, essential: string,
    depends: string, preDepends: string, recommends: string, suggests: string,
    conflicts: string, breaks: string, replacing: string, providing: string,
    description: string, homepage: string, custom: map<string, string>)

  datatype Stanza = Stanza(
    control: Control, filename: string, size: int,
    sha256: string, sha512: string, sha1: string, md5sum: string)

  datatype Field =
    | Package | Version | Architecture | Maintainer | InstalledSize | Section | Priority | Essential
    | Depends | PreDepends | Recommends | Suggests | Conflicts | Breaks | Replaces | Provides
    | Homepage | Description | Filename | Size | SHA256 | SHA512 | SHA1 | MD5sum

  function Name(f: Field): string {
    match f
    case Package => "Package"
    case Version => "Version"
    case Architecture => "Architecture"
    case Maintainer => "Maintainer"
    case InstalledSize => "Installed-Size"
    case Section => "Section"
    case Priority => "Priority"
    case Essential => "Essential"
    case Depends => "Depends"
    case PreDepends => "Pre-Depends"
    case Recommends => "Recommends"
    case Suggests => "Suggests"
    case Conflicts => "Conflicts"
    case Breaks => "Breaks"
    case Replaces => "Replaces"
    case Provides => "Provides"
    case Homepage => "Homepage"
    case Description => "Description"
    case Filename => "Filename"
    case Size => "Size"
    case SHA256 => "SHA256"
    case SHA512 => "SHA512"
    case SHA1 => "SHA1"
    case MD5sum => "MD5sum"
  }

  /** The text written for a field. Installed-Size is written only when positive. */
  function TextOf(s: Stanza, f: Field): string {
    match f
    case Package => s.control.package
    case Version => s.control.version
    case Architecture => s.control.architecture
    case Maintainer => s.control.maintainer
    case InstalledSize => if s.control.installedSize > 0 then FormatInt(s.control.installedSize) else ""
    case Section => s.control.section
    case Priority => s.control.priority
    case Essential => s.control.essential
    case Depends => s.control.depends
    case PreDepends => s.control.preDepends
    case Recommends => s.control.recommends
    case Suggests => s.control.suggests
    case Conflicts => s.control.conflicts
    case Breaks => s.control.breaks
    case Replaces => s.control.replacing
    case Provides => s.control.providing
    case Homepage => s.control.homepage
    case Description => s.control.description
    case Filename => s.filename
    case Size => FormatInt(s.size)
    case SHA256 => s.sha256
    case SHA512 => s.sha512
    case SHA1 => s.sha1
    case MD5sum => s.md5sum
  }

  /** Written even when empty. */
  predicate Mandatory(f: Field) {
    f in {Package, Version, Architecture, Maintainer, Description, Filename, Size, SHA256}
  }

  predicate Written(s: Stanza, f: Field) {
    Mandatory(f) || TextOf(s, f) != ""
  }

  /** Written before the custom fields, and after them. */
  const HEAD: seq<Field> := [
    Package, Version, Architecture, Maintainer, InstalledSize, Section, Priority, Essential,
    Depends, PreDepends, Recommends, Suggests, Conflicts, Breaks, Replaces, Provides, Homepage]

  const TAIL: seq<Field> := [Description, Filename, Size, SHA256, SHA512, SHA1, MD5sum]

  // ----- writing -----

  function SetFields(p: Para, s: Stanza, fs: seq<Field>): Para
    decreases |fs|
  {
    if fs == [] then p else
    SetFields(if Written(s, fs[0]) then SetField(p, Name(fs[0]), TextOf(s, fs[0])) else p, s, fs[1..])
  }

  function SetCustom(p: Para, custom: map<string, string>, keys: seq<string>): Para
    requires forall k :: k in keys ==> k in custom
    decreases |keys|
  {
    if keys == [] then p else SetCustom(SetField(p, keys[0], custom[keys[0]]), custom, keys[1..])
  }

  /** An order in which the runtime may range over the keys of a map. */
  predicate Iterates(keys: seq<string>, m: map<string, string>) {
    && Distinct(keys)
    && (forall k :: k in keys ==> k in m)
    && (forall k :: k in m ==> k in keys)
  }

  function ParaOf(s: Stanza, head: seq<Field>, keys: seq<string>, tail: seq<Field>): Para
    requires Iterates(keys, s.control.custom)
  {
    SetFields(SetCustom(SetFields(EMPTY, s, head), s.control.custom, keys), s, tail)
  }

  /** PackageStanza.ToParagraph, for one iteration order of the custom fields. */
  function ToPara(s: Stanza, keys: seq<string>): Para
    requires Iterates(keys, s.control.custom)
  {
    ParaOf(s, HEAD, keys, TAIL)
  }

  // ----- reading -----

  function LowerChar(c: char): char {
    if 'A' <= c <= 'Z' then c + ' ' else c
  }

  function ToLower(s: string): (r: string)
    ensures |r| == |s| && forall i :: 0 <= i < |s| ==> r[i] == LowerChar(s[i])
  {
    seq(|s|, i requires 0 <= i < |s| => LowerChar(s[i]))
  }

  predicate SameName(a: string, b: string) { ToLower(a) == ToLower(b) }

  /** v is a possible result of Get(key): the exact field, else any field whose name differs only
      in case (the map is searched in no fixed order), else the empty string. */
  predicate CanGet(p: Para, key: string, v: string) {
    if key in p.fields then
      v == p.fields[key]
    else
      || (exists k :: k in p.fields && SameName(k, key) && v == p.fields[k])
      || (v == "" && forall k :: k in p.fields ==> !SameName(k, key))
  }

  /** A size that does not parse is left at zero. */
  function SizeOf(text: string): int {
    match ParseInt(text) case Some(n) => n case None => 0
  }

  predicate IsStandard(key: string) {
    exists f: Field :: Name(f) == key
  }

  /** The value of a field of s agrees with the looked-up text v. */
  predicate Reads(s: Stanza, f: Field, v: string) {
    match f
    case InstalledSize => s.control.installedSize == SizeOf(v)
    case Size => s.size == SizeOf(v)
    case _ => TextOf(s, f) == v
  }

  ghost predicate CanRead(p: Para, s: Stanza, f: Field) {
    exists v :: CanGet(p, Name(f), v) && Reads(s, f, v)
  }

  function CustomOf(p: Para): map<string, string> {
    map k | k in p.fields && !IsStandard(k) :: p.fields[k]
  }

  /** The stanza decoded from one text per field. */
  function FromTexts(g: Field -> string, custom: map<string, string>): Stanza {
    Stanza(
      Control(g(Package), g(Version), g(Architecture), g(Maintainer), SizeOf(g(InstalledSize)),
              g(Section), g(Priority), g(Essential), g(Depends), g(PreDepends), g(Recommends), g(Suggests),
              g(Conflicts), g(Breaks), g(Replaces), g(Provides), g(Description), g(Homepage), custom),
      g(Filename), SizeOf(g(Size)), g(SHA256), g(SHA512), g(SHA1), g(MD5sum))
  }

  /** s is a possible result of ParagraphToStanza(p). */
  ghost predicate IsStanzaOf(p: Para, s: Stanza) {
    && (forall f: Field :: CanRead(p, s, f))
    && s.control.custom == CustomOf(p)
  }
}

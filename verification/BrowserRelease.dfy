/** The Release-reading part of a sync, and what it learns from a Release file that a publish has
    written: exactly the listed architectures and components. */
module BrowserRelease {
  import opened Deb822
  import opened Stanzas
  import opened Words
  import R = Release
  import RR = ReleaseReading

  // ----- what a sync keeps of a Release file -----

  datatype Meta = Meta(
    origin: string, labelText: string, suite: string, codename: string, date: string, description: string,
    architectures: seq<string>, components: seq<string>)

  /** name is a possible result of the lookup of the codename, with another one where it is empty. */
  ghost predicate CanName(p: Para, otherwise: string, name: string) {
    exists c :: CanGet(p, "Codename", c) && name == if c == "" then otherwise else c
  }

  /** words is what a possible result of the lookup of this field is split into. */
  ghost predicate CanSplit(p: Para, field: string, words: seq<string>) {
    exists v :: CanGet(p, field, v) && words == Fields(v)
  }

  predicate TextsRead(p: Para, origin: string, labelText: string, suite: string, date: string, description: string) {
    && CanGet(p, "Origin", origin) && CanGet(p, "Label", labelText) && CanGet(p, "Suite", suite)
    && CanGet(p, "Date", date) && CanGet(p, "Description", description)
  }

  ghost predicate NamesRead(p: Para, codename: string, name: string, archs: seq<string>, comps: seq<string>) {
    && CanName(p, codename, name) && CanSplit(p, "Architectures", archs) && CanSplit(p, "Components", comps)
  }

  /** m is a possible reading of the first paragraph p of the Release file of codename. */
  ghost predicate IsMeta(p: Para, codename: string, m: Meta) {
    && TextsRead(p, m.origin, m.labelText, m.suite, m.date, m.description)
    && NamesRead(p, codename, m.codename, m.architectures, m.components)
  }

  /** A field that is present has one reading. */
  lemma PresentIsRead(p: Para, name: string, value: string, v: string)
    requires HasUnlessEmpty(p, name, value) && CanGet(p, name, v)
    ensures value != "" ==> v == value
  {
  }

  lemma TextsLearned(p: Para, m: Meta, manifest: R.Manifest, now: string, codename: string)
    requires IsMeta(p, codename, m) && RR.HasHeader(p, manifest, now)
    ensures manifest.codename != "" ==> m.codename == manifest.codename
    ensures m.date == if manifest.date == "" then now else manifest.date
    ensures manifest.origin != "" ==> m.origin == manifest.origin
    ensures manifest.labelText != "" ==> m.labelText == manifest.labelText
    ensures manifest.suite != "" ==> m.suite == manifest.suite
    ensures manifest.description != "" ==> m.description == manifest.description
  {
    PresentIsRead(p, "Origin", manifest.origin, m.origin);
    PresentIsRead(p, "Label", manifest.labelText, m.labelText);
    PresentIsRead(p, "Suite", manifest.suite, m.suite);
    PresentIsRead(p, "Description", manifest.description, m.description);
  }

  lemma WordsLearned(p: Para, m: Meta, manifest: R.Manifest, now: string, codename: string)
    requires IsMeta(p, codename, m) && RR.HasHeader(p, manifest, now)
    ensures manifest.architectures != [] ==> R.IsSortedSetOf(m.architectures, manifest.architectures)
    ensures manifest.components != [] ==> R.IsSortedSetOf(m.components, manifest.components)
  {
  }

  /** m says what the manifest says, where it says anything. */
  ghost predicate Learned(m: Meta, manifest: R.Manifest, now: string) {
    && m.codename == manifest.codename && m.date == (if manifest.date == "" then now else manifest.date)
    && (manifest.origin != "" ==> m.origin == manifest.origin)
    && (manifest.labelText != "" ==> m.labelText == manifest.labelText)
    && (manifest.suite != "" ==> m.suite == manifest.suite)
    && (manifest.description != "" ==> m.description == manifest.description)
    && (manifest.architectures != [] ==> R.IsSortedSetOf(m.architectures, manifest.architectures))
    && (manifest.components != [] ==> R.IsSortedSetOf(m.components, manifest.components))
  }

  /** Whatever is written by a publish is read back, whatever lookup the browser makes: the texts,
      and of the word lists the non-empty words, each once. */
  lemma PublishedIsLearned(manifest: R.Manifest, now: string, sorted: seq<R.Checksum>, text: string, codename: string)
    returns (p: Para)
    requires RR.PlainManifest(manifest, now) && R.IsRelease(manifest, now, sorted, text) && manifest.codename != ""
    ensures ParseText(text) == [p] && forall m :: IsMeta(p, codename, m) ==> Learned(m, manifest, now)
  {
    p := RR.ReleaseReadBack(manifest, now, sorted, text);
    forall m | IsMeta(p, codename, m) ensures Learned(m, manifest, now) {
      TextsLearned(p, m, manifest, now, codename);
      WordsLearned(p, m, manifest, now, codename);
    }
  }
}

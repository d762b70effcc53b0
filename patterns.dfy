/**
 * File-name patterns of the menu synchroniser.
 *
 * The source directory is listed with the glob `*.desktop`, the target
 * directory with the glob `org.flatpak.*.desktop`, and the watcher filters
 * event names by the suffix `.desktop`. Globs are modelled as plain
 * prefix/suffix predicates on the name.
 */
module Patterns {

  type Name = string

  const DesktopSuffix: string := ".desktop"
  const FlatpakPrefix: string := "org.flatpak."

  predicate StartsWith(s: string, prefix: string) {
    |prefix| <= |s| && s[..|prefix|] == prefix
  }

  predicate EndsWith(s: string, suffix: string) {
    |suffix| <= |s| && s[|s| - |suffix|..] == suffix
  }

  /** The glob `*.desktop`: the star may match the empty string. */
  predicate IsDesktop(name: Name) {
    EndsWith(name, DesktopSuffix)
  }

  /**
   * The glob `org.flatpak.*.desktop`: the star may match the empty string,
   * but the prefix and the suffix may not overlap.
   */
  predicate IsFlatpakDesktop(name: Name)
    ensures IsFlatpakDesktop(name) ==> IsDesktop(name) && |name| >= 20
  {
    |FlatpakPrefix| + |DesktopSuffix| <= |name| &&
    StartsWith(name, FlatpakPrefix) && EndsWith(name, DesktopSuffix)
  }

  /**
   * The two patterns are not symmetric: an exported launcher whose
   * application id is not under `org.flatpak.` ends in `.desktop` but is
   * outside the target pattern; and the prefix and suffix of the target
   * pattern cannot share their dot.
   */
  lemma PatternsDiffer()
    ensures IsDesktop("org.mozilla.firefox.desktop")
    ensures !IsFlatpakDesktop("org.mozilla.firefox.desktop")
    ensures IsFlatpakDesktop("org.flatpak.Builder.desktop")
    ensures IsDesktop("org.flatpak.desktop") && !IsFlatpakDesktop("org.flatpak.desktop")
  {
    assert "org.mozilla.firefox.desktop"[..12] != FlatpakPrefix by {
      assert "org.mozilla.firefox.desktop"[4] != FlatpakPrefix[4];
    }
    assert "org.mozilla.firefox.desktop"[19..] == DesktopSuffix;
    assert "org.flatpak.Builder.desktop"[..12] == FlatpakPrefix;
    assert "org.flatpak.Builder.desktop"[19..] == DesktopSuffix;
    assert "org.flatpak.desktop"[11..] == DesktopSuffix;
  }
}

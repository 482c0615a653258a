/**
 The natural key of a synced plugin file joins the plugin id and the path with a
 newline (internal/domain/vault_sync_plugins.go), and a pass finds its own
 entries by prefix (internal/usecase/plugin_data_reconcile.go). Both are sound
 because a plugin id holds no newline; elsewhere the key is therefore the pair.
 */
module PluginKey {

  function Key(plugin: string, path: string): string { plugin + "\n" + path }

  predicate OneLine(s: string) { '\n' !in s }

  /** Joined keys are equal exactly when the pairs are. */
  lemma KeyIsInjective(p: string, q: string, path: string, path': string)
    requires OneLine(p) && OneLine(q)
    ensures Key(p, path) == Key(q, path') <==> p == q && path == path'
  {
    if Key(p, path) == Key(q, path') {
      var k := Key(p, path);
      assert k[|p|] == '\n' && k[|q|] == '\n';
      assert |p| == |q|;
      assert p == k[..|p|] == q;
      assert path == k[|p| + 1..] == path';
    }
  }

  /** Cutting a key by the prefix of a plugin finds exactly that plugin's entries, and gives back the path. */
  lemma PrefixFindsOwn(p: string, q: string, path: string)
    requires OneLine(p) && OneLine(q)
    ensures (p + "\n") <= Key(q, path) <==> p == q
    ensures p == q ==> Key(q, path)[|p + "\n"|..] == path
  {
    if (p + "\n") <= Key(q, path) {
      var rest := Key(q, path)[|p| + 1..];
      assert Key(q, path) == Key(p, rest);
      KeyIsInjective(p, q, rest, path);
    }
    if p == q {
      assert Key(q, path)[..|p| + 1] == p + "\n";
    }
  }

  /** With a newline in an id two different files share a key. */
  lemma NewlineBreaksKeys()
    ensures Key("a\nb", "c") == Key("a", "b\nc")
  {
  }
}

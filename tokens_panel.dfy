/** The token library's bookkeeping in TokensPanel.js: folder-path
    sanitising, the list-item view model and its ordering, the one-time
    migration of the old folder tree into the flat `mytokens` list, the
    derivation of the sidebar items and the redraw filter. */
module TokensPanel {
  import opened Wrappers
  import opened TextUtil

  const PathRoot := "/"
  const PathPlayers := "/Players"
  const PathMyTokens := "/My Tokens"

  // ----- `sanitize_folder_path` (lines 9-19) -----

  ghost predicate HasDoubleSlash(s: string) {
    exists k: nat :: OccursAt(s, "//", k)
  }

  /** One left-to-right pass replacing `//` by `/`, then at most one trailing
      `/` dropped, then a leading `/` added when missing (`endsWith("/")` and
      `startsWith("/")` test one character). */
  function SanitizeFolderPath(dirty: string): (clean: string)
    ensures StartsWith(clean, "/")
  {
    var once := ReplaceAll(dirty, "//", "/");
    var trimmed := if once != [] && once[|once| - 1] == '/' then once[..|once| - 1] else once;
    if trimmed != [] && trimmed[0] == '/' then trimmed else "/" + trimmed
  }

  /** The empty path and the root both sanitise to the root. */
  lemma SanitizeRoot()
    ensures SanitizeFolderPath("") == PathRoot
    ensures SanitizeFolderPath("/") == PathRoot
  {
    assert ReplaceAll("/", "//", "/") == "/";
  }

  /** Without a doubled slash the pass changes nothing, so the result is the
      root or ends in something other than `/`. */
  lemma SanitizeNoDoubleSlash(dirty: string)
    requires !HasDoubleSlash(dirty)
    ensures var clean := SanitizeFolderPath(dirty);
      clean == PathRoot || !EndsWith(clean, "/")
  {
    ReplaceAllAbsent(dirty, "//", "/");
    var clean := SanitizeFolderPath(dirty);
    var trimmed := if dirty != [] && dirty[|dirty| - 1] == '/' then dirty[..|dirty| - 1] else dirty;
    if trimmed != [] {
      assert trimmed[|trimmed| - 1] != '/' by {
        if dirty != [] && dirty[|dirty| - 1] == '/' && dirty[|dirty| - 2] == '/' {
          assert dirty[|dirty| - 2..|dirty|] == "//";
          assert OccursAt(dirty, "//", |dirty| - 2);
        }
      }
      assert clean[|clean| - 1] == trimmed[|trimmed| - 1];
      assert clean[|clean| - 1..] == [clean[|clean| - 1]];
    }
  }

  /** A single pass: three slashes after a name leave one behind. */
  lemma SanitizeSinglePass()
    ensures SanitizeFolderPath("a////") == "/a/"
  {
    assert ReplaceAll("//", "//", "/") == "/" + ReplaceAll("", "//", "/");
    assert ReplaceAll("a////", "//", "/") == "a//";
  }

  /** A path the sanitiser leaves as it is: the root, or `/` followed by
      slash-separated non-empty names. */
  ghost predicate CleanPath(p: string) {
    p == PathRoot || (StartsWith(p, "/") && !HasDoubleSlash(p) && !EndsWith(p, "/"))
  }

  /** `//` occurs exactly where two slashes stand next to each other. */
  lemma DoubleSlashAt(s: string, k: nat)
    ensures OccursAt(s, "//", k) <==> k + 2 <= |s| && s[k] == '/' && s[k + 1] == '/'
  {
    if k + 2 <= |s| {
      var w := s[k..k + 2];
      assert w[0] == s[k] && w[1] == s[k + 1];
      assert w == "//" <==> w[0] == '/' && w[1] == '/';
    }
  }

  lemma NoDoubleSlashConcat(a: string, b: string)
    requires !HasDoubleSlash(a) && !HasDoubleSlash(b)
    requires a == [] || b == [] || a[|a| - 1] != '/' || b[0] != '/'
    ensures !HasDoubleSlash(a + b)
  {
    var s := a + b;
    forall k: nat
      ensures !OccursAt(s, "//", k)
    {
      DoubleSlashAt(s, k);
      if k + 2 > |s| {
      } else if k + 2 <= |a| {
        DoubleSlashAt(a, k);
        assert s[k] == a[k] && s[k + 1] == a[k + 1];
      } else if k >= |a| {
        DoubleSlashAt(b, k - |a|);
        assert s[k] == b[k - |a|] && s[k + 1] == b[k - |a| + 1];
      } else {
        assert s[k] == a[|a| - 1] && s[k + 1] == b[0];
      }
    }
  }

  /** A plain name has no doubled slash. */
  lemma NoSlashNoDouble(name: string)
    requires '/' !in name
    ensures !HasDoubleSlash(name)
  {
    forall k: nat
      ensures !OccursAt(name, "//", k)
    {
      if k + 2 <= |name| {
        assert name[k..k + 2][0] == name[k];
      }
    }
  }

  /** Appending a slash and a plain name to a clean path gives a clean path;
      under the root the doubled slash the concatenation makes is removed. */
  lemma SanitizeChild(p: string, name: string)
    requires CleanPath(p)
    requires name != [] && '/' !in name
    ensures SanitizeFolderPath(p + "/" + name) == (if p == PathRoot then "/" + name else p + "/" + name)
    ensures CleanPath(SanitizeFolderPath(p + "/" + name))
  {
    NoSlashNoDouble(name);
    assert !HasDoubleSlash("/") by {
      forall k: nat | OccursAt("/", "//", k) ensures false { }
    }
    NoDoubleSlashConcat("/", name);
    var tail := "/" + name;
    assert tail[|tail| - 1] == name[|name| - 1];
    assert name[|name| - 1] in name;
    if p == PathRoot {
      assert p + "/" + name == "//" + name;
      ReplaceAllAbsent(name, "//", "/");
      assert ReplaceAll("//" + name, "//", "/") == "/" + ReplaceAll(name, "//", "/") by {
        assert ("//" + name)[..2] == "//";
        assert ("//" + name)[2..] == name;
      }
      assert ("/" + name)[..1] == "/";
      assert !EndsWith(tail, "/");
    } else {
      assert p[|p| - 1] != '/' by { assert p[|p| - 1..] == [p[|p| - 1]]; }
      NoDoubleSlashConcat(p, tail);
      assert p + "/" + name == p + tail;
      ReplaceAllAbsent(p + tail, "//", "/");
      var s := p + tail;
      assert s[..1] == p[..1];
      assert s[|s| - 1] == name[|name| - 1];
      assert !EndsWith(s, "/");
    }
  }

  // ----- `TokenListItem` (lines 69-154) -----

  datatype ItemType = TypeFolder | TypeMyToken | TypePC | TypeMonster

  /** The sidebar view model; the per-type extras (`sheet`, `monsterId`, ...)
      are not kept. */
  datatype TokenListItem = TokenListItem(
    name: string, image: string, itemType: ItemType, subtitle: string, folderPath: string)

  /** The constructor: it keeps the folder path only in sanitised form. */
  function NewItem(name: string, image: string, t: ItemType, subtitle: string, folderPath: string): (item: TokenListItem)
    ensures item.name == name && item.image == image && item.itemType == t && item.subtitle == subtitle
    ensures StartsWith(item.folderPath, "/")
    ensures CleanPath(folderPath) ==> item.folderPath == folderPath
  {
    SanitizeIdle(folderPath);
    TokenListItem(name, image, t, subtitle, SanitizeFolderPath(folderPath))
  }

  /** A clean path is a fixed point of the sanitiser. */
  lemma SanitizeIdle(p: string)
    ensures CleanPath(p) ==> SanitizeFolderPath(p) == p
  {
    if p == PathRoot {
      SanitizeRoot();
    } else if CleanPath(p) {
      ReplaceAllAbsent(p, "//", "/");
    }
  }

  const FolderImage := "assets/folder.svg"

  /** `TokenListItem.Folder`. */
  function FolderItem(folderPath: string, name: string, subtitle: string): (item: TokenListItem)
    ensures item.itemType == TypeFolder && item.name == name && item.subtitle == subtitle
    ensures item.image == FolderImage && StartsWith(item.folderPath, "/")
    ensures CleanPath(folderPath) ==> item.folderPath == folderPath
  {
    NewItem(name, FolderImage, TypeFolder, subtitle, folderPath)
  }

  predicate IsFolder(item: TokenListItem) {
    item.itemType == TypeFolder
  }

  /** `fullPath()`: the item's folder path, a slash and its name, sanitised. */
  function FullPath(item: TokenListItem): (p: string)
    ensures StartsWith(p, "/")
  {
    SanitizeFolderPath(item.folderPath + "/" + item.name)
  }

  /** An item with a plain name in a clean folder has the full path one
      would write by hand. */
  lemma FullPathOfPlainName(item: TokenListItem)
    requires CleanPath(item.folderPath)
    requires item.name != [] && '/' !in item.name
    ensures FullPath(item) ==
      (if item.folderPath == PathRoot then "/" + item.name else item.folderPath + "/" + item.name)
    ensures CleanPath(FullPath(item))
  {
    SanitizeChild(item.folderPath, item.name);
  }

  // ----- `sortComparator` (lines 134-143) -----

  /** JavaScript's `<` on strings: lexicographic on characters, a proper
      prefix first. */
  predicate LexLess(a: string, b: string) {
    if a == [] then b != []
    else b != [] && (a[0] < b[0] || (a[0] == b[0] && LexLess(a[1..], b[1..])))
  }

  lemma {:induction false} LexTrichotomy(a: string, b: string)
    ensures LexLess(a, b) || a == b || LexLess(b, a)
    ensures !(LexLess(a, b) && LexLess(b, a))
    ensures !LexLess(a, a)
  {
    if a != [] && b != [] {
      LexTrichotomy(a[1..], b[1..]);
      LexTrichotomy(a[1..], a[1..]);
      if a[0] == b[0] && a[1..] == b[1..] {
        assert a == [a[0]] + a[1..] && b == [b[0]] + b[1..];
      }
    } else if a != [] {
      LexTrichotomy(a[1..], a[1..]);
    }
  }

  lemma {:induction false} LexTransitive(a: string, b: string, c: string)
    requires LexLess(a, b) && LexLess(b, c)
    ensures LexLess(a, c)
  {
    if a != [] && a[0] == b[0] && b[0] == c[0] {
      LexTransitive(a[1..], b[1..], c[1..]);
    }
  }

  function SortComparator(lhs: TokenListItem, rhs: TokenListItem): (c: int)
    ensures -1 <= c <= 1
    ensures IsFolder(lhs) && !IsFolder(rhs) ==> c == -1
    ensures !IsFolder(lhs) && IsFolder(rhs) ==> c == 1
  {
    if IsFolder(lhs) && !IsFolder(rhs) then -1
    else if !IsFolder(lhs) && IsFolder(rhs) then 1
    else if LexLess(lhs.name, rhs.name) then -1
    else if LexLess(rhs.name, lhs.name) then 1
    else 0
  }

  /** Swapping the arguments negates the answer. */
  lemma ComparatorAntisymmetric(lhs: TokenListItem, rhs: TokenListItem)
    ensures SortComparator(lhs, rhs) == -SortComparator(rhs, lhs)
  {
    LexTrichotomy(lhs.name, rhs.name);
  }

  /** Two items compare equal exactly when both or neither are folders and
      their names are the same. */
  lemma ComparatorZero(lhs: TokenListItem, rhs: TokenListItem)
    ensures SortComparator(lhs, rhs) == 0 <==> IsFolder(lhs) == IsFolder(rhs) && lhs.name == rhs.name
  {
    LexTrichotomy(lhs.name, rhs.name);
  }

  /** "Not after" is transitive, so the comparator is a total preorder. */
  lemma ComparatorTransitive(a: TokenListItem, b: TokenListItem, c: TokenListItem)
    requires SortComparator(a, b) <= 0 && SortComparator(b, c) <= 0
    ensures SortComparator(a, c) <= 0
  {
    LexTrichotomy(a.name, b.name);
    LexTrichotomy(b.name, c.name);
    LexTrichotomy(a.name, c.name);
    if IsFolder(a) == IsFolder(c) && LexLess(a.name, b.name) && LexLess(b.name, c.name) {
      LexTransitive(a.name, b.name, c.name);
    }
    if IsFolder(a) == IsFolder(c) && LexLess(c.name, a.name) {
      if LexLess(a.name, b.name) {
        LexTransitive(c.name, a.name, b.name);
      } else if LexLess(b.name, c.name) {
        LexTransitive(b.name, c.name, a.name);
      }
    }
  }

  // ----- the filter and sort of `redraw_token_list` (lines 350-356) -----

  /** No item comes after its successor. */
  predicate Sorted(items: seq<TokenListItem>) {
    forall i | 0 <= i < |items| - 1 :: SortComparator(items[i], items[i + 1]) <= 0
  }

  /** Inserts `x` before the first element it does not come after, so that
      an element from earlier in the input stays ahead of its equals. */
  function Insert(x: TokenListItem, ys: seq<TokenListItem>): (zs: seq<TokenListItem>)
    ensures multiset(zs) == multiset(ys) + multiset{x}
    ensures |zs| == |ys| + 1
    ensures ys != [] ==> zs[0] == x || zs[0] == ys[0]
  {
    if ys == [] then [x]
    else if SortComparator(x, ys[0]) <= 0 then [x] + ys
    else
      assert ys == [ys[0]] + ys[1..];
      [ys[0]] + Insert(x, ys[1..])
  }

  lemma {:induction false} InsertSorted(x: TokenListItem, ys: seq<TokenListItem>)
    requires Sorted(ys)
    ensures Sorted(Insert(x, ys))
  {
    if ys != [] && SortComparator(x, ys[0]) > 0 {
      var rest := ys[1..];
      InsertSorted(x, rest);
      ComparatorAntisymmetric(x, ys[0]);
      var tail := Insert(x, rest);
      assert Insert(x, ys) == [ys[0]] + tail;
      assert SortComparator(ys[0], tail[0]) <= 0;
    }
  }

  /** The array sort of the redraw, as a stable insertion sort. */
  function SortItems(xs: seq<TokenListItem>): (ys: seq<TokenListItem>)
    ensures multiset(ys) == multiset(xs)
    ensures Sorted(ys)
  {
    if xs == [] then []
    else
      var rest := SortItems(xs[1..]);
      InsertSorted(xs[0], rest);
      assert xs == [xs[0]] + xs[1..];
      Insert(xs[0], rest)
  }

  /** The filter callback: folders not at the root, and other items whose
      lower-cased name contains the filter as given. */
  predicate Shown(item: TokenListItem, nameFilter: string): (r: bool)
    ensures !IsFolder(item) && nameFilter == "" ==> r
    ensures !IsFolder(item) && r ==> |nameFilter| <= |item.name|
  {
    if IsFolder(item) then item.folderPath != PathRoot
    else Contains(ToLower(item.name), nameFilter)
  }

  function FilterItems(items: seq<TokenListItem>, nameFilter: string): (shown: seq<TokenListItem>)
    ensures forall x :: multiset(shown)[x] == if Shown(x, nameFilter) then multiset(items)[x] else 0
  {
    if items == [] then []
    else
      assert items == [items[0]] + items[1..];
      (if Shown(items[0], nameFilter) then [items[0]] else []) + FilterItems(items[1..], nameFilter)
  }

  /** The items the redraw lays out, in the order it lays them out. */
  function RedrawItems(items: seq<TokenListItem>, nameFilter: string): (shown: seq<TokenListItem>)
    ensures Sorted(shown)
    ensures forall x :: multiset(shown)[x] == if Shown(x, nameFilter) then multiset(items)[x] else 0
  {
    SortItems(FilterItems(items, nameFilter))
  }

  /** The filter is not lower-cased: one with an upper-case letter hides
      every item that is not a folder. */
  lemma UpperCaseFilterHidesTokens(nameFilter: string, k: nat, item: TokenListItem)
    requires k < |nameFilter| && 'A' <= nameFilter[k] <= 'Z'
    requires !IsFolder(item)
    ensures !Shown(item, nameFilter)
  {
    var lower := ToLower(item.name);
    ContainsIff(lower, nameFilter);
    if p: nat :| OccursAt(lower, nameFilter, p) {
      assert false;
    }
  }

  // ----- `migrate_to_my_tokens` (lines 21-54) -----

  /** A token object of the old folder tree; `data-name` may be missing. */
  datatype StoredToken = StoredToken(name: Option<string>, image: string)

  /** A folder of the old tree with its `tokens` (missing for `None`) and
      its sub-folders by key; the tree stands in for `convert_path`. */
  datatype OldFolder = OldFolder(tokens: Option<seq<TokenEntry>>, folders: seq<ChildFolder>)
  datatype TokenEntry = TokenEntry(key: string, token: StoredToken)
  datatype ChildFolder = ChildFolder(key: string, folder: OldFolder)

  /** An entry of `mytokens`. */
  datatype MyToken = MyToken(name: string, image: string, folderPath: string, oldFolderKey: string)

  /** What a migration appends to `mytokens` and to `emptyfolders`. */
  datatype Migration = Migration(tokens: seq<MyToken>, emptyFolders: seq<string>)

  function Then(a: Migration, b: Migration): Migration {
    Migration(a.tokens + b.tokens, a.emptyFolders + b.emptyFolders)
  }

  /** One token of a folder at the sanitised path `current`. */
  function MigrateToken(current: string, e: TokenEntry): (t: MyToken)
    ensures t.folderPath == current && t.oldFolderKey == e.key
    ensures e.token.name.Some? ==> t.name == e.token.name.value
    ensures e.token.name.None? ==> t.name == e.key
  {
    MyToken(e.token.name.GetOr(e.key), e.token.image, current, e.key)
  }

  /** The folder's own part: its tokens in key order, or its path as an
      empty folder when it has no `tokens`. */
  function OwnMigration(current: string, f: OldFolder): (m: Migration)
    ensures f.tokens.None? ==> m == Migration([], [current])
    ensures f.tokens.Some? ==> m.emptyFolders == [] && |m.tokens| == |f.tokens.value|
    ensures f.tokens.Some? ==> forall i | 0 <= i < |m.tokens| :: m.tokens[i] == MigrateToken(current, f.tokens.value[i])
  {
    match f.tokens
    case None => Migration([], [current])
    case Some(es) => Migration(seq(|es|, i requires 0 <= i < |es| => MigrateToken(current, es[i])), [])
  }

  /** `migrateFolderAtPath(oldFolderPath)` on the folder found there: the
      folder's own tokens, or its own empty-folder entry, come before
      anything of its sub-folders. */
  function MigratedFrom(oldFolderPath: string, f: OldFolder): (m: Migration)
    ensures var own := OwnMigration(SanitizeFolderPath(oldFolderPath), f);
      own.tokens <= m.tokens && own.emptyFolders <= m.emptyFolders
    decreases f, 1, 0
  {
    var current := SanitizeFolderPath(oldFolderPath);
    Then(OwnMigration(current, f), ChildrenMigrated(current, f, |f.folders|))
  }

  /** The first `n` sub-folders of `f`, whose folder is at `current`. */
  function ChildrenMigrated(current: string, f: OldFolder, n: nat): Migration
    requires n <= |f.folders|
    decreases f, 0, n
  {
    if n == 0 then Migration([], [])
    else
      var c := f.folders[n - 1];
      Then(ChildrenMigrated(current, f, n - 1), MigratedFrom(current + "/" + c.key, c.folder))
  }

  /** Appending the first `n` sub-folders' migrations and then the next one
      is appending the first `n + 1`. */
  lemma ChildStep(toks: seq<MyToken>, empties: seq<string>, current: string, f: OldFolder, n: nat)
    requires n < |f.folders|
    ensures var before := ChildrenMigrated(current, f, n);
      var child := MigratedFrom(current + "/" + f.folders[n].key, f.folders[n].folder);
      && toks + before.tokens + child.tokens == toks + ChildrenMigrated(current, f, n + 1).tokens
      && empties + before.emptyFolders + child.emptyFolders == empties + ChildrenMigrated(current, f, n + 1).emptyFolders
  {
    var before := ChildrenMigrated(current, f, n);
    var child := MigratedFrom(current + "/" + f.folders[n].key, f.folders[n].folder);
    assert ChildrenMigrated(current, f, n + 1) == Then(before, child);
    AppendAssoc(toks, before.tokens, child.tokens);
    AppendAssoc(empties, before.emptyFolders, child.emptyFolders);
  }

  lemma AppendAssoc<T>(a: seq<T>, b: seq<T>, c: seq<T>)
    ensures a + b + c == a + (b + c)
  {
  }

  /** Every token the migration records carries a path starting with `/`,
      and so does every empty folder. */
  predicate Rooted(m: Migration) {
    && (forall i | 0 <= i < |m.tokens| :: StartsWith(m.tokens[i].folderPath, "/"))
    && (forall i | 0 <= i < |m.emptyFolders| :: StartsWith(m.emptyFolders[i], "/"))
  }

  lemma ThenRooted(a: Migration, b: Migration)
    requires Rooted(a) && Rooted(b)
    ensures Rooted(Then(a, b))
  {
    var t := Then(a, b);
    forall i | |a.tokens| <= i < |t.tokens| ensures StartsWith(t.tokens[i].folderPath, "/") {
      assert t.tokens[i] == b.tokens[i - |a.tokens|];
    }
    forall i | |a.emptyFolders| <= i < |t.emptyFolders| ensures StartsWith(t.emptyFolders[i], "/") {
      assert t.emptyFolders[i] == b.emptyFolders[i - |a.emptyFolders|];
    }
  }

  lemma {:induction false} MigratedRooted(oldFolderPath: string, f: OldFolder)
    ensures Rooted(MigratedFrom(oldFolderPath, f))
    decreases f, 1, 0
  {
    var current := SanitizeFolderPath(oldFolderPath);
    ChildrenRooted(current, f, |f.folders|);
    ThenRooted(OwnMigration(current, f), ChildrenMigrated(current, f, |f.folders|));
  }

  lemma {:induction false} ChildrenRooted(current: string, f: OldFolder, n: nat)
    requires n <= |f.folders|
    ensures Rooted(ChildrenMigrated(current, f, n))
    decreases f, 0, n
  {
    if n > 0 {
      var c := f.folders[n - 1];
      ChildrenRooted(current, f, n - 1);
      MigratedRooted(current + "/" + c.key, c.folder);
      ThenRooted(ChildrenMigrated(current, f, n - 1), MigratedFrom(current + "/" + c.key, c.folder));
    }
  }

  /** The number of tokens in the tree and the number of folders without
      `tokens`, counted independently of the migration. */
  function TokenCount(f: OldFolder): nat
    decreases f, 1, 0
  {
    (if f.tokens.Some? then |f.tokens.value| else 0) + ChildrenTokenCount(f, |f.folders|)
  }

  function ChildrenTokenCount(f: OldFolder, n: nat): nat
    requires n <= |f.folders|
    decreases f, 0, n
  {
    if n == 0 then 0 else ChildrenTokenCount(f, n - 1) + TokenCount(f.folders[n - 1].folder)
  }

  function EmptyCount(f: OldFolder): nat
    decreases f, 1, 0
  {
    (if f.tokens.None? then 1 else 0) + ChildrenEmptyCount(f, |f.folders|)
  }

  function ChildrenEmptyCount(f: OldFolder, n: nat): nat
    requires n <= |f.folders|
    decreases f, 0, n
  {
    if n == 0 then 0 else ChildrenEmptyCount(f, n - 1) + EmptyCount(f.folders[n - 1].folder)
  }

  /** Every token of the tree is migrated once, and every folder without
      `tokens` is recorded once, wherever the tree starts. */
  lemma {:induction false} MigrationCounts(oldFolderPath: string, f: OldFolder)
    ensures |MigratedFrom(oldFolderPath, f).tokens| == TokenCount(f)
    ensures |MigratedFrom(oldFolderPath, f).emptyFolders| == EmptyCount(f)
    decreases f, 1, 0
  {
    ChildrenCounts(SanitizeFolderPath(oldFolderPath), f, |f.folders|);
  }

  lemma {:induction false} ChildrenCounts(current: string, f: OldFolder, n: nat)
    requires n <= |f.folders|
    ensures |ChildrenMigrated(current, f, n).tokens| == ChildrenTokenCount(f, n)
    ensures |ChildrenMigrated(current, f, n).emptyFolders| == ChildrenEmptyCount(f, n)
    decreases f, 0, n
  {
    if n > 0 {
      var c := f.folders[n - 1];
      ChildrenCounts(current, f, n - 1);
      MigrationCounts(current + "/" + c.key, c.folder);
    }
  }

  /** The tokens of the root folder get the root as their path. */
  lemma RootTokensAtRoot(f: OldFolder, i: nat)
    requires f.tokens.Some? && i < |f.tokens.value|
    ensures MigratedFrom(PathRoot, f).tokens[i].folderPath == PathRoot
  {
    SanitizeRoot();
    var own := OwnMigration(PathRoot, f);
    assert MigratedFrom(PathRoot, f).tokens[i] == own.tokens[i];
  }

  /** The global `mytokens` and `emptyfolders`, and `window.tokenListItems`. */
  class TokenStore {
    var myTokens: seq<MyToken>
    var emptyFolders: seq<string>
    var tokenListItems: seq<TokenListItem>

    constructor()
      ensures myTokens == [] && emptyFolders == [] && tokenListItems == []
    {
      myTokens := [];
      emptyFolders := [];
      tokenListItems := [];
    }

    /** `migrate_to_my_tokens`: nothing when `mytokens` already has entries,
        otherwise the migration of the whole tree from the root. */
    method MigrateToMyTokens(root: OldFolder)
      modifies this`myTokens, this`emptyFolders
      ensures old(myTokens) != [] ==> myTokens == old(myTokens) && emptyFolders == old(emptyFolders)
      ensures old(myTokens) == [] ==>
        && myTokens == MigratedFrom(PathRoot, root).tokens
        && emptyFolders == old(emptyFolders) + MigratedFrom(PathRoot, root).emptyFolders
    {
      if |myTokens| > 0 {
        return;
      }
      MigrateFolderAtPath(PathRoot, root);
    }

    /** `migrateFolderAtPath`: appends the folder's tokens (or its path as an
        empty folder), then recurses into each sub-folder in key order. */
    method MigrateFolderAtPath(oldFolderPath: string, f: OldFolder)
      modifies this`myTokens, this`emptyFolders
      ensures myTokens == old(myTokens) + MigratedFrom(oldFolderPath, f).tokens
      ensures emptyFolders == old(emptyFolders) + MigratedFrom(oldFolderPath, f).emptyFolders
      decreases f, 1
    {
      var current := SanitizeFolderPath(oldFolderPath);
      ghost var own, kids := OwnMigration(current, f), ChildrenMigrated(current, f, |f.folders|);
      assert MigratedFrom(oldFolderPath, f) == Then(own, kids);
      RecordFolder(current, f);
      MigrateChildren(current, f);
      AppendAssoc(old(myTokens), own.tokens, kids.tokens);
      AppendAssoc(old(emptyFolders), own.emptyFolders, kids.emptyFolders);
    }

    /** The loop of `migrateFolderAtPath` over the sub-folders of `f`, whose
        own path is `current`. */
    method MigrateChildren(current: string, f: OldFolder)
      modifies this`myTokens, this`emptyFolders
      ensures myTokens == old(myTokens) + ChildrenMigrated(current, f, |f.folders|).tokens
      ensures emptyFolders == old(emptyFolders) + ChildrenMigrated(current, f, |f.folders|).emptyFolders
      decreases f, 0
    {
      for n := 0 to |f.folders|
        invariant myTokens == old(myTokens) + ChildrenMigrated(current, f, n).tokens
        invariant emptyFolders == old(emptyFolders) + ChildrenMigrated(current, f, n).emptyFolders
      {
        var c := f.folders[n];
        MigrateFolderAtPath(current + "/" + c.key, c.folder);
        ChildStep(old(myTokens), old(emptyFolders), current, f, n);
      }
    }

    /** The folder's own part of `migrateFolderAtPath`: each token stamped
        with the folder's path and pushed, or the path pushed as an empty
        folder when the folder has no `tokens`. */
    method RecordFolder(current: string, f: OldFolder)
      modifies this`myTokens, this`emptyFolders
      ensures myTokens == old(myTokens) + OwnMigration(current, f).tokens
      ensures emptyFolders == old(emptyFolders) + OwnMigration(current, f).emptyFolders
    {
      ghost var own := OwnMigration(current, f);
      match f.tokens {
        case None =>
          emptyFolders := emptyFolders + [current];
        case Some(es) =>
          for i := 0 to |es|
            invariant myTokens == old(myTokens) + own.tokens[..i]
            invariant emptyFolders == old(emptyFolders)
          {
            myTokens := myTokens + [MigrateToken(current, es[i])];
            assert own.tokens[..i + 1] == own.tokens[..i] + [own.tokens[i]];
          }
          assert own.tokens[..|es|] == own.tokens;
      }
    }

    /** `rebuild_token_items_list`: the players, then for each token a folder
        entry the first time its non-root path is seen and the token's own
        entry, then one entry per empty folder; each entry becomes its item. */
    method RebuildTokenItemsList(pcs: seq<Pc>)
      modifies this`tokenListItems
      ensures tokenListItems == RebuiltItems(pcs, myTokens, emptyFolders)
    {
      var toks := myTokens;
      var empties := emptyFolders;
      var listed: seq<Listed> := [];
      var knownPaths: seq<string> := [];
      for i := 0 to |toks|
        invariant listed == TokenPlan(toks, i)
        invariant forall p :: p in knownPaths <==> p != PathRoot && PathSeen(toks, i, p)
      {
        var path := toks[i].folderPath;
        if path != PathRoot && path !in knownPaths {
          listed := listed + [ListedFolder(path, "FOLDER")];
          knownPaths := knownPaths + [path];
        }
        listed := listed + [ListedToken(toks[i])];
      }
      for i := 0 to |empties|
        invariant listed == TokenPlan(toks, |toks|) + EmptyPlan(empties[..i])
      {
        listed := listed + [ListedFolder(empties[i], "EMPTY FOLDER")];
        assert empties[..i + 1] == empties[..i] + [empties[i]];
      }
      assert empties[..|empties|] == empties;
      tokenListItems := PcItems(pcs) + ItemsOf(listed);
    }
  }

  // ----- the items of `rebuild_token_items_list` (lines 164-195) -----

  /** An entry of `window.pcs`. */
  datatype Pc = Pc(sheet: string, name: string, image: string)

  function PcItems(pcs: seq<Pc>): (items: seq<TokenListItem>)
    ensures |items| == |pcs|
    ensures forall i | 0 <= i < |pcs| :: items[i].itemType == TypePC && items[i].name == pcs[i].name
  {
    seq(|pcs|, i requires 0 <= i < |pcs| => NewItem(pcs[i].name, pcs[i].image, TypePC, "PLAYER", PathPlayers))
  }

  /** `TokenListItem.MyToken`. */
  function MyTokenItem(t: MyToken): (item: TokenListItem)
    ensures item.itemType == TypeMyToken && item.name == t.name
    ensures item.image == t.image && item.subtitle == "MyToken"
    ensures CleanPath(t.folderPath) ==>
      item.folderPath == PathMyTokens + (if t.folderPath == PathRoot then "" else t.folderPath)
  {
    SanitizeUnderMyTokens(t.folderPath);
    NewItem(t.name, t.image, TypeMyToken, "MyToken", PathMyTokens + "/" + t.folderPath)
  }

  /** `/My Tokens` holds no slash after its first character. */
  lemma MyTokensPlain()
    ensures forall k | 1 <= k < |PathMyTokens| :: PathMyTokens[k] != '/'
    ensures CleanPath(PathMyTokens) && PathMyTokens != PathRoot
  {
    assert PathMyTokens == "/" + "My Tokens";
    assert '/' !in "My Tokens";
    forall k: nat
      ensures !OccursAt(PathMyTokens, "//", k)
    {
      DoubleSlashAt(PathMyTokens, k);
    }
    assert PathMyTokens[|PathMyTokens| - 1..] == "s";
  }

  /** An occurrence in the text after the first character is one in the
      text, a place further on. */
  lemma OccursAfterFirst(s: string, p: string, k: nat)
    requires s != []
    ensures OccursAt(s[1..], p, k) ==> OccursAt(s, p, k + 1)
  {
    if k + |p| <= |s[1..]| {
      assert s[1..][k..k + |p|] == s[k + 1..k + 1 + |p|];
    }
  }

  /** The pass leaves a prefix without `//` alone when no `//` starts in it. */
  lemma {:induction false} ReplaceAfterPlain(a: string, rest: string)
    requires forall k: nat | k < |a| :: !OccursAt(a + rest, "//", k)
    ensures ReplaceAll(a + rest, "//", "/") == a + ReplaceAll(rest, "//", "/")
    decreases |a|
  {
    if a == [] {
      assert a + rest == rest;
    } else {
      var s := a + rest;
      assert s[1..] == a[1..] + rest;
      assert a == [a[0]] + a[1..];
      forall k: nat | k < |a| - 1
        ensures !OccursAt(a[1..] + rest, "//", k)
      {
        OccursAfterFirst(s, "//", k);
      }
      ReplaceAfterPlain(a[1..], rest);
      if |s| >= 2 {
        assert !OccursAt(s, "//", 0);
        assert ReplaceAll(s, "//", "/") == [s[0]] + ReplaceAll(s[1..], "//", "/");
      } else {
        assert rest == [] && a + rest == a;
      }
    }
  }

  /** A clean path, or the empty text, put under `/My Tokens/` and
      sanitised: the doubled slash and a trailing one disappear. */
  lemma SanitizeUnderMyTokens(c: string)
    ensures c == "" || CleanPath(c) ==>
      SanitizeFolderPath(PathMyTokens + "/" + c) == PathMyTokens + (if c == "" || c == PathRoot then "" else c)
  {
    if c == "" || CleanPath(c) {
      SanitizeUnderClean(c);
    }
  }

  lemma SanitizeUnderClean(c: string)
    requires c == "" || CleanPath(c)
    ensures SanitizeFolderPath(PathMyTokens + "/" + c) ==
      PathMyTokens + (if c == "" || c == PathRoot then "" else c)
  {
    MyTokensThenSlash(c);
    if c == "" || c == PathRoot {
      assert ReplaceAll("/" + c, "//", "/") == "/" by {
        if c == PathRoot {
          assert ("/" + c)[..2] == "//";
          assert ("/" + c)[2..] == "";
        }
      }
      assert (PathMyTokens + "/")[..|PathMyTokens|] == PathMyTokens;
    } else {
      SlashBeforeClean(c);
      var once := PathMyTokens + c;
      assert once[|once| - 1] == c[|c| - 1];
      assert c[|c| - 1..] == [c[|c| - 1]];
    }
  }

  /** The pass over `/My Tokens/...` keeps `/My Tokens` and goes on after it. */
  lemma MyTokensThenSlash(c: string)
    ensures ReplaceAll(PathMyTokens + "/" + c, "//", "/") == PathMyTokens + ReplaceAll("/" + c, "//", "/")
  {
    MyTokensPlain();
    var s := PathMyTokens + "/" + c;
    assert s == PathMyTokens + ("/" + c);
    forall k: nat | k < |PathMyTokens|
      ensures !OccursAt(s, "//", k)
    {
      DoubleSlashAt(s, k);
      assert s[k] == PathMyTokens[k];
      if k == 0 {
        assert s[1] == 'M';
      } else if k + 1 < |PathMyTokens| {
        assert s[k + 1] == PathMyTokens[k + 1];
      }
    }
    ReplaceAfterPlain(PathMyTokens, "/" + c);
  }

  /** A slash put before a clean non-root path makes one `//`, which the pass
      removes. */
  lemma SlashBeforeClean(c: string)
    requires CleanPath(c) && c != PathRoot
    ensures ReplaceAll("/" + c, "//", "/") == c
  {
    var tail := c[1..];
    assert c == "/" + tail by { assert c[..1] == "/"; }
    forall k: nat
      ensures !OccursAt(tail, "//", k)
    {
      OccursAfterFirst(c, "//", k);
    }
    ReplaceAllAbsent(tail, "//", "/");
    assert ("/" + c)[..2] == "//" && ("/" + c)[2..] == tail;
  }

  /** `path.split("/").pop()`: the text after the last `/`. */
  function LastComponent(path: string): (name: string)
    ensures '/' !in name
  {
    var parts := Split(path, '/');
    parts[|parts| - 1]
  }

  /** What `join("/")` gives for the components left after the `pop()`. */
  function ParentPath(path: string): string {
    var parts := Split(path, '/');
    Join(parts[..|parts| - 1], '/')
  }

  /** The parent path, a `/` and the last component give back the path. */
  lemma ParentAndLast(path: string)
    requires '/' in path
    ensures ParentPath(path) + "/" + LastComponent(path) == path
  {
    var parts := Split(path, '/');
    JoinSplit(path, '/');
    SplitAtSeparator(path, '/');
    var front := parts[..|parts| - 1];
    assert parts == front + [parts[|parts| - 1]];
    JoinAppend(front, parts[|parts| - 1], '/');
  }

  /** The folder item for a token path: named after the last `/`-component,
      in `/My Tokens/` followed by the other components. */
  function DerivedFolder(path: string, subtitle: string): (item: TokenListItem)
    ensures item.itemType == TypeFolder && item.subtitle == subtitle
    ensures item.name == LastComponent(path)
    ensures CleanPath(path) && path != PathRoot ==> item.folderPath == PathMyTokens + ParentPath(path)
  {
    ParentClean(path);
    SanitizeUnderMyTokens(ParentPath(path));
    FolderItem(PathMyTokens + "/" + ParentPath(path), LastComponent(path), subtitle)
  }

  /** The parent of a clean non-root path is empty or a clean non-root path,
      and its last component is a non-empty name. */
  lemma ParentClean(path: string)
    ensures CleanPath(path) && path != PathRoot ==> var q := ParentPath(path);
      (q == "" || (CleanPath(q) && q != PathRoot)) && LastComponent(path) != ""
  {
    if CleanPath(path) && path != PathRoot {
      CleanParent(path);
    }
  }

  lemma CleanParent(path: string)
    requires CleanPath(path) && path != PathRoot
    ensures var q := ParentPath(path);
      (q == "" || (CleanPath(q) && q != PathRoot)) && LastComponent(path) != ""
  {
    assert path[..1] == "/";
    ParentAndLast(path);
    var q, last := ParentPath(path), LastComponent(path);
    assert path == q + "/" + last;
    if q != "" {
      assert q[0] == path[0];
      assert q[..1] == "/";
      forall k: nat
        ensures !OccursAt(q, "//", k)
      {
        assert OccursAt(q, "//", k) ==> OccursAt(path, "//", k) by {
          if k + 2 <= |q| {
            assert path[k..k + 2] == q[k..k + 2];
          }
        }
      }
      assert path[|q| - 1] == q[|q| - 1] && path[|q|] == '/';
      assert path[|q| - 1..|q| + 1] == [q[|q| - 1], '/'];
      assert !OccursAt(path, "//", |q| - 1);
      assert q[|q| - 1..] == [q[|q| - 1]];
      assert !EndsWith(q, "/");
    }
  }

  /** `/My Tokens` followed by an empty or clean non-root path is clean. */
  lemma UnderMyTokensClean(q: string)
    requires q == "" || (CleanPath(q) && q != PathRoot)
    ensures CleanPath(PathMyTokens + q)
  {
    MyTokensPlain();
    var folder := PathMyTokens + q;
    if q == "" {
      assert folder == PathMyTokens;
    } else {
      assert PathMyTokens[|PathMyTokens| - 1] == 's';
      NoDoubleSlashConcat(PathMyTokens, q);
      assert folder[..1] == "/";
      assert folder[|folder| - 1..] == q[|q| - 1..];
    }
  }

  /** Each token item lies in the folder that its path's folder item opens:
      the folder item's full path is the token item's folder path,
      `/My Tokens` followed by the token's path. */
  lemma {:induction false} TokenInItsFolder(t: MyToken, subtitle: string)
    requires CleanPath(t.folderPath) && t.folderPath != PathRoot
    ensures FullPath(DerivedFolder(t.folderPath, subtitle)) == MyTokenItem(t).folderPath
    ensures MyTokenItem(t).folderPath == PathMyTokens + t.folderPath
  {
    DerivedFolderFullPath(t.folderPath, subtitle);
  }

  /** The full path of the folder item derived from a clean path is
      `/My Tokens` followed by that path. */
  lemma DerivedFolderFullPath(p: string, subtitle: string)
    requires CleanPath(p) && p != PathRoot
    ensures FullPath(DerivedFolder(p, subtitle)) == PathMyTokens + p
  {
    var q, last := ParentPath(p), LastComponent(p);
    assert FullPath(DerivedFolder(p, subtitle)) == (PathMyTokens + q) + "/" + last by {
      ParentClean(p);
      UnderMyTokensClean(q);
      FolderFullPath(DerivedFolder(p, subtitle), PathMyTokens + q, last);
    }
    ParentAndLast(p);
    PrefixedJoin(PathMyTokens, q, last);
  }

  lemma PrefixedJoin(a: string, q: string, last: string)
    ensures (a + q) + "/" + last == a + (q + "/" + last)
  {
  }

  /** A folder item in a clean non-root folder with a plain name has that
      folder, a slash and the name as its full path. */
  lemma FolderFullPath(item: TokenListItem, folder: string, name: string)
    requires item.folderPath == folder && item.name == name
    requires CleanPath(folder) && folder != PathRoot && name != [] && '/' !in name
    ensures FullPath(item) == folder + "/" + name
  {
    FullPathOfPlainName(item);
  }



  /** Some of the first `n` tokens has path `p`. */
  predicate PathSeen(toks: seq<MyToken>, n: nat, p: string)
    requires n <= |toks|
  {
    n > 0 && (toks[n - 1].folderPath == p || PathSeen(toks, n - 1, p))
  }

  /** Token `i` is the first one with its non-root path. */
  predicate OpensFolder(toks: seq<MyToken>, i: nat)
    requires i < |toks|
  {
    toks[i].folderPath != PathRoot && !PathSeen(toks, i, toks[i].folderPath)
  }

  /** What the rebuild lists after the players, before it is turned into
      items: a folder item for a path, or a token's item. */
  datatype Listed = ListedFolder(path: string, subtitle: string) | ListedToken(token: MyToken)

  function ItemOf(l: Listed): (item: TokenListItem)
    ensures l.ListedFolder? ==> item.itemType == TypeFolder
    ensures l.ListedToken? ==> item.itemType == TypeMyToken
  {
    match l
    case ListedFolder(path, subtitle) => DerivedFolder(path, subtitle)
    case ListedToken(t) => MyTokenItem(t)
  }

  function ItemsOf(ls: seq<Listed>): (items: seq<TokenListItem>)
    ensures |items| == |ls|
  {
    if ls == [] then [] else ItemsOf(ls[..|ls| - 1]) + [ItemOf(ls[|ls| - 1])]
  }

  lemma ItemsOfSnoc(ls: seq<Listed>, l: Listed)
    ensures ItemsOf(ls + [l]) == ItemsOf(ls) + [ItemOf(l)]
  {
    assert (ls + [l])[..|ls|] == ls;
  }

  /** The i-th item is the item of the i-th entry. */
  lemma {:induction false} ItemsOfAt(ls: seq<Listed>, i: nat)
    requires i < |ls|
    ensures ItemsOf(ls)[i] == ItemOf(ls[i])
  {
    if i < |ls| - 1 {
      ItemsOfAt(ls[..|ls| - 1], i);
    }
  }

  /** What one token adds: a folder entry if it opens its folder, then the
      token. */
  function TokenStep(toks: seq<MyToken>, i: nat): seq<Listed>
    requires i < |toks|
  {
    (if OpensFolder(toks, i) then [ListedFolder(toks[i].folderPath, "FOLDER")] else [])
    + [ListedToken(toks[i])]
  }

  /** The entries for the first `n` tokens. */
  function TokenPlan(toks: seq<MyToken>, n: nat): seq<Listed>
    requires n <= |toks|
  {
    if n == 0 then [] else TokenPlan(toks, n - 1) + TokenStep(toks, n - 1)
  }

  function EmptyPlan(es: seq<string>): (ls: seq<Listed>)
    ensures |ls| == |es|
    ensures forall i | 0 <= i < |es| :: ls[i] == ListedFolder(es[i], "EMPTY FOLDER")
  {
    if es == [] then [] else EmptyPlan(es[..|es| - 1]) + [ListedFolder(es[|es| - 1], "EMPTY FOLDER")]
  }

  /** `window.tokenListItems` after the rebuild: the player items first,
      and one "EMPTY FOLDER" folder item per empty folder last, in order. */
  function RebuiltItems(pcs: seq<Pc>, toks: seq<MyToken>, es: seq<string>): (items: seq<TokenListItem>)
    ensures PcItems(pcs) <= items && |es| <= |items|
    ensures items[|items| - |es|..] == EmptyFolderItems(es)
  {
    var plan := TokenPlan(toks, |toks|);
    EmptyFoldersLast(plan, es);
    PcItems(pcs) + ItemsOf(plan + EmptyPlan(es))
  }

  /** One "EMPTY FOLDER" folder item per path. */
  function EmptyFolderItems(es: seq<string>): (items: seq<TokenListItem>)
    ensures |items| == |es|
  {
    seq(|es|, i requires 0 <= i < |es| => DerivedFolder(es[i], "EMPTY FOLDER"))
  }

  /** The entries of the empty folders, put after a plan, give their folder
      items at the end. */
  lemma {:induction false} EmptyFoldersLast(plan: seq<Listed>, es: seq<string>)
    ensures |ItemsOf(plan + EmptyPlan(es))| == |plan| + |es|
    ensures ItemsOf(plan + EmptyPlan(es))[|plan|..] == EmptyFolderItems(es)
  {
    if es == [] {
      assert plan + EmptyPlan(es) == plan;
    } else {
      var front, e := es[..|es| - 1], es[|es| - 1];
      EmptyFoldersLast(plan, front);
      assert plan + EmptyPlan(es) == (plan + EmptyPlan(front)) + [ListedFolder(e, "EMPTY FOLDER")];
      ItemsOfSnoc(plan + EmptyPlan(front), ListedFolder(e, "EMPTY FOLDER"));
      assert EmptyFolderItems(es) == EmptyFolderItems(front) + [DerivedFolder(e, "EMPTY FOLDER")];
    }
  }

  /** The paths for which a folder entry is made, in order of first use. */
  function OpenedPaths(toks: seq<MyToken>, n: nat): seq<string>
    requires n <= |toks|
  {
    if n == 0 then []
    else OpenedPaths(toks, n - 1) + (if OpensFolder(toks, n - 1) then [toks[n - 1].folderPath] else [])
  }

  /** One folder per distinct non-root path: the opened paths have no
      repeats and are exactly the non-root paths of the tokens. */
  lemma {:induction false} OpenedPathsDistinct(toks: seq<MyToken>, n: nat)
    requires n <= |toks|
    ensures forall i, j | 0 <= i < j < |OpenedPaths(toks, n)| :: OpenedPaths(toks, n)[i] != OpenedPaths(toks, n)[j]
    ensures forall p :: p in OpenedPaths(toks, n) <==> p != PathRoot && PathSeen(toks, n, p)
  {
    if n > 0 {
      OpenedPathsDistinct(toks, n - 1);
    }
  }

  /** The token entries of a plan, in order, and its folder paths. */
  function TokensListed(ls: seq<Listed>): seq<MyToken> {
    if ls == [] then []
    else TokensListed(ls[..|ls| - 1]) + (if ls[|ls| - 1].ListedToken? then [ls[|ls| - 1].token] else [])
  }

  function FoldersListed(ls: seq<Listed>): seq<string> {
    if ls == [] then []
    else FoldersListed(ls[..|ls| - 1]) + (if ls[|ls| - 1].ListedFolder? then [ls[|ls| - 1].path] else [])
  }

  lemma {:induction false} ListedConcat(a: seq<Listed>, b: seq<Listed>)
    ensures TokensListed(a + b) == TokensListed(a) + TokensListed(b)
    ensures FoldersListed(a + b) == FoldersListed(a) + FoldersListed(b)
    decreases |b|
  {
    if b == [] {
      assert a + b == a;
    } else {
      var front := b[..|b| - 1];
      assert (a + b)[..|a + b| - 1] == a + front;
      ListedConcat(a, front);
    }
  }

  /** What one token's step lists: the token, and the path it opens. */
  lemma StepListed(toks: seq<MyToken>, i: nat)
    requires i < |toks|
    ensures TokensListed(TokenStep(toks, i)) == [toks[i]]
    ensures FoldersListed(TokenStep(toks, i)) == if OpensFolder(toks, i) then [toks[i].folderPath] else []
  {
    var opening := if OpensFolder(toks, i) then [ListedFolder(toks[i].folderPath, "FOLDER")] else [];
    ListedConcat(opening, [ListedToken(toks[i])]);
    assert TokensListed([ListedToken(toks[i])]) == [toks[i]];
    assert FoldersListed([ListedToken(toks[i])]) == [];
    if opening != [] {
      assert TokensListed(opening) == [];
      assert FoldersListed(opening) == [toks[i].folderPath];
    }
  }

  /** The plan for `n + 1` tokens lists what the plan for `n` lists, then
      what the next token's step lists. */
  lemma PlanStep(toks: seq<MyToken>, n: nat)
    requires n < |toks|
    ensures TokensListed(TokenPlan(toks, n + 1)) == TokensListed(TokenPlan(toks, n)) + [toks[n]]
    ensures FoldersListed(TokenPlan(toks, n + 1))
      == FoldersListed(TokenPlan(toks, n)) + (if OpensFolder(toks, n) then [toks[n].folderPath] else [])
  {
    var before, step := TokenPlan(toks, n), TokenStep(toks, n);
    assert TokenPlan(toks, n + 1) == before + step;
    ListedConcat(before, step);
    StepListed(toks, n);
  }

  lemma {:induction false} TokensOfPlan(toks: seq<MyToken>, n: nat)
    requires n <= |toks|
    ensures TokensListed(TokenPlan(toks, n)) == toks[..n]
  {
    if n > 0 {
      assert toks[..n] == toks[..n - 1] + [toks[n - 1]];
      TokensOfPlan(toks, n - 1);
      PlanStep(toks, n - 1);
    }
  }

  lemma {:induction false} FoldersOfPlan(toks: seq<MyToken>, n: nat)
    requires n <= |toks|
    ensures FoldersListed(TokenPlan(toks, n)) == OpenedPaths(toks, n)
  {
    if n > 0 {
      FoldersOfPlan(toks, n - 1);
      PlanStep(toks, n - 1);
    }
  }

  /** Every token is listed once, in token order, and the folder entries
      are the opened paths in order of first use. */
  lemma TokenPlanContents(toks: seq<MyToken>)
    ensures TokensListed(TokenPlan(toks, |toks|)) == toks
    ensures FoldersListed(TokenPlan(toks, |toks|)) == OpenedPaths(toks, |toks|)
  {
    TokensOfPlan(toks, |toks|);
    FoldersOfPlan(toks, |toks|);
  }
}

/** The per-user storage keys and the JSON load/save helpers. */
module UserStorage {
  import opened Wrappers
  import opened Strings
  import opened LocalStore

  const PostsPrefix := "myPosts:"
  const CommentsPrefix := "myComments:"

  /** `uid || "guest"` */
  function Owner(uid: Option<string>): string
  {
    if uid.Some? && uid.value != "" then uid.value else "guest"
  }

  /** `postsKey(uid)` */
  function PostsKey(uid: Option<string>): string
  {
    PostsPrefix + Owner(uid)
  }

  /** `commentsKey(uid)` */
  function CommentsKey(uid: Option<string>): string
  {
    CommentsPrefix + Owner(uid)
  }

  /** Each key names its owner: a missing or empty uid and the uid `"guest"` share the
      guest's keys, any other uid gets its own. */
  lemma KeysSpec(uid: Option<string>, other: Option<string>)
    ensures PostsKey(None) == PostsKey(Some("")) == PostsKey(Some("guest"))
    ensures CommentsKey(None) == CommentsKey(Some("")) == CommentsKey(Some("guest"))
    ensures PostsKey(uid) == PostsKey(other) <==> Owner(uid) == Owner(other)
    ensures CommentsKey(uid) == CommentsKey(other) <==> Owner(uid) == Owner(other)
    ensures uid.Some? && uid.value != "" ==> PostsKey(uid) == PostsPrefix + uid.value
  {
    if PostsKey(uid) == PostsKey(other) {
      assert Owner(uid) == PostsKey(uid)[|PostsPrefix|..];
    }
    if CommentsKey(uid) == CommentsKey(other) {
      assert Owner(uid) == CommentsKey(uid)[|CommentsPrefix|..];
    }
  }

  /** A posts key and a comments key never coincide. */
  lemma KeysDisjoint(uid: Option<string>, other: Option<string>)
    ensures PostsKey(uid) != CommentsKey(other)
  {
    assert PostsKey(uid)[2] == 'P' && CommentsKey(other)[2] == 'C';
  }

  /** `loadJSON(key, fallback)`: the fallback for a missing key or empty text, and when the
      text does not parse. */
  function LoadJson(cells: Cells, key: string, fallback: seq<Entry>): seq<Entry>
  {
    if key in cells && cells[key].List? then cells[key].items else fallback
  }

  /** The load returns the fallback when the key holds no list, and the stored list when it
      holds one. */
  lemma LoadJsonFallback(cells: Cells, key: string, fallback: seq<Entry>)
    ensures key !in cells || cells[key].Text? ==> LoadJson(cells, key, fallback) == fallback
    ensures key in cells && cells[key].List? ==> LoadJson(cells, key, fallback) == cells[key].items
  {
  }

  /** What is saved loads back, whatever the fallback, and saving leaves other keys alone. */
  lemma SaveThenLoad(cells: Cells, key: string, value: seq<Entry>, fallback: seq<Entry>, other: string)
    ensures LoadJson(cells[key := List(value)], key, fallback) == value
    ensures other != key ==> LoadJson(cells[key := List(value)], other, fallback) == LoadJson(cells, other, fallback)
  {
  }

  /** `loadJSON` reading the shared storage. */
  method LoadJsonFrom(store: Storage, key: string, fallback: seq<Entry>) returns (r: seq<Entry>)
    ensures r == LoadJson(store.cells, key, fallback)
  {
    if key in store.cells && store.cells[key].List? {
      r := store.cells[key].items;
    } else {
      r := fallback;
    }
  }

  /** `saveJSON(key, value)` */
  method SaveJson(store: Storage, key: string, value: seq<Entry>)
    modifies store
    ensures store.cells == old(store.cells)[key := List(value)]
  {
    store.SetList(key, value);
  }
}

/**
 * The ownCloud user's page states (owncloud_user/states.py). Every file view recomputes its
 * modifiers in `adapt_before` from what the page shows: the remaining scroll space, the
 * favoured and unfavoured rows, the rows the user may read or delete, the current directory
 * and the share lists. The page readings are parameters; the rules are pure functions.
 */
module OwncloudStates {
  import opened Wrappers
  import opened Engine
  import opened CoreStates
  import opened OwncloudGather
  import opened Strings

  // ---------------------------------------------------------------- selecting menu

  /** The selecting menu (all files 0.25, favorites 0.2, shared with me 0.25, shared by me 0.2, return 0.1, boost 1.25). */
  function NewSelectingMenu(): (m: ActivityState)
    ensures m.Valid() && m.base.Size() == 5 && m.ret == 4 && m.retIncrease == 1.25
    ensures Sum(m.base.weights) == 1.0
  {
    NewActivity([0.25, 0.2, 0.25, 0.2, 0.1], None, 4, 1.25)
  }

  // ---------------------------------------------------------------- scrolling

  /** `_update_scroll_down`: scrolling is possible iff at least `min_scroll_space` pixels remain. */
  function ScrollModifier(space: real, minSpace: real): (m: real)
    ensures m == 0.0 <==> space < minSpace
    ensures m == 1.0 <==> space >= minSpace
  {
    if space < minSpace then 0.0 else 1.0
  }

  // ---------------------------------------------------------------- favourites

  /** A row marked `data-favorite='true'`. */
  predicate Favored(x: Row)
  {
    x.favorite == Some("true")
  }

  /** The number of favoured (or, for `favored == false`, unfavoured) rows of the list. */
  function CountFavored(rows: seq<Row>, favored: bool): (n: nat)
    ensures n <= |rows|
    ensures n > 0 <==> exists x :: x in rows && Favored(x) == favored
  {
    if |rows| == 0 then 0
    else
      assert forall x :: x in rows <==> x == rows[0] || x in rows[1..] by {
        assert rows == [rows[0]] + rows[1..];
      }
      (if Favored(rows[0]) == favored then 1 else 0) + CountFavored(rows[1..], favored)
  }

  /** Every row is either favoured or not: the two counts add up to the list length. */
  lemma {:induction false} FavoredSplit(rows: seq<Row>)
    ensures CountFavored(rows, true) + CountFavored(rows, false) == |rows|
  {
    if |rows| > 0 {
      FavoredSplit(rows[1..]);
    }
  }

  datatype FavoriteModifiers = FavoriteModifiers(favorite: real, removeFavorite: real)

  /**
   * `_update_favorite_actions`: favouring is off when nothing is left unfavoured and otherwise
   * weighs `factor^favoured`; removing a favourite is off when nothing is favoured and
   * otherwise weighs `factor^unfavoured`. For a factor in (0, 1] both are in (0, 1] when on.
   */
  function FavoriteActions(rows: seq<Row>, factor: real): (r: FavoriteModifiers)
    ensures (forall x :: x in rows ==> Favored(x)) ==> r.favorite == 0.0
    ensures (forall x :: x in rows ==> !Favored(x)) ==> r.removeFavorite == 0.0
    ensures (exists x :: x in rows && !Favored(x)) ==> r.favorite == Pow(factor, CountFavored(rows, true))
    ensures (exists x :: x in rows && Favored(x)) ==> r.removeFavorite == Pow(factor, CountFavored(rows, false))
    ensures 0.0 < factor <= 1.0 ==>
              (0.0 < r.favorite <==> exists x :: x in rows && !Favored(x)) && r.favorite <= 1.0
              && (0.0 < r.removeFavorite <==> exists x :: x in rows && Favored(x)) && r.removeFavorite <= 1.0
  {
    var favored, unfavored := CountFavored(rows, true), CountFavored(rows, false);
    if 0.0 < factor <= 1.0 then
      PowInUnit(factor, favored);
      PowInUnit(factor, unfavored);
      FavoriteModifiers(if unfavored == 0 then 0.0 else Pow(factor, favored),
                        if favored == 0 then 0.0 else Pow(factor, unfavored))
    else
      FavoriteModifiers(if unfavored == 0 then 0.0 else Pow(factor, favored),
                        if favored == 0 then 0.0 else Pow(factor, unfavored))
  }

  /** With the default factor 1 the favourite rules are plain on/off switches. */
  lemma FavoriteDefaultFactor(rows: seq<Row>)
    ensures FavoriteActions(rows, 1.0).favorite == Flag(exists x :: x in rows && !Favored(x))
    ensures FavoriteActions(rows, 1.0).removeFavorite == Flag(exists x :: x in rows && Favored(x))
  {
    PowOfOne(CountFavored(rows, true));
    PowOfOne(CountFavored(rows, false));
  }

  // ---------------------------------------------------------------- reading

  /** A listed (not pending) directory the user may read. */
  predicate ReadableDir(x: Row)
  {
    Accepted(x) && x.dataType == Some("dir") && Bit(x.permissions, 0)
  }

  /** A listed (not pending) non-directory the user may read. */
  predicate ReadableFile(x: Row)
  {
    Accepted(x) && x.dataType != Some("dir") && Bit(x.permissions, 0)
  }

  datatype ReadModifiers = ReadModifiers(viewDetails: real, downloadFile: real, downloadDirectory: real, openDirectory: real)

  /**
   * `_update_read_actions`: details can be viewed iff some row is listed; directories can be
   * opened and downloaded iff a listed directory grants READ; files can be downloaded iff a
   * listed non-directory grants READ.
   */
  function ReadActions(rows: seq<Row>): (r: ReadModifiers)
    ensures r.viewDetails == Flag(exists x :: x in rows && Accepted(x))
    ensures r.openDirectory == r.downloadDirectory == Flag(exists x :: x in rows && ReadableDir(x))
    ensures r.downloadFile == Flag(exists x :: x in rows && ReadableFile(x))
  {
    var data := GetData(rows, None, false, None);
    assert forall c: nat :: IsPermissions(Read, Some(c)) <==> Bit(c, 0) by {
      forall c: nat ensures IsPermissions(Read, Some(c)) <==> Bit(c, 0) {
        ReadDeleteFlags(c);
      }
    }
    assert |data| > 0 <==> exists x :: x in rows && Accepted(x) by {
      if |data| > 0 {
        assert data[0] in data;
      }
    }
    var dirs := exists d :: d in data && d.dataType == Some("dir") && IsPermissions(Read, Some(d.permissions));
    var files := exists d :: d in data && d.dataType != Some("dir") && IsPermissions(Read, Some(d.permissions));
    ReadModifiers(Flag(|data| > 0), Flag(files), Flag(dirs), Flag(dirs))
  }

  // ---------------------------------------------------------------- deleting

  /** A listed directory the user may delete and is configured to modify. */
  predicate DeletableDir(x: Row, modifiable: string -> bool)
  {
    Accepted(x) && x.dataType == Some("dir") && Bit(x.permissions, 3) && modifiable(x.path)
  }

  /** A listed non-directory the user may delete and is configured to modify. */
  predicate DeletableFile(x: Row, modifiable: string -> bool)
  {
    Accepted(x) && x.dataType != Some("dir") && Bit(x.permissions, 3) && modifiable(x.path)
  }

  datatype DeleteModifiers = DeleteModifiers(deleteFile: real, deleteDirectory: real)

  /**
   * `_update_delete_actions`: a directory (file) can be deleted iff some listed directory
   * (non-directory) grants DELETE and lies on a path one of the modify patterns accepts.
   */
  function DeleteActions(rows: seq<Row>, modifiable: string -> bool): (r: DeleteModifiers)
    ensures r.deleteDirectory == Flag(exists x :: x in rows && DeletableDir(x, modifiable))
    ensures r.deleteFile == Flag(exists x :: x in rows && DeletableFile(x, modifiable))
  {
    var dirs := GetDirs(rows, Some(Delete));
    var files := GetFiles(rows, Some(Delete));
    assert forall c: nat :: IsPermissions(Delete, Some(c)) <==> Bit(c, 3) by {
      forall c: nat ensures IsPermissions(Delete, Some(c)) <==> Bit(c, 3) {
        ReadDeleteFlags(c);
      }
    }
    DeleteModifiers(Flag(exists d :: d in files && modifiable(d.path)),
                    Flag(exists d :: d in dirs && modifiable(d.path)))
  }

  // ---------------------------------------------------------------- directories

  /** `_update_nav_root`: navigating to the root is pointless (off) exactly on the root. */
  function NavRootModifier(dir: string): (m: real)
    ensures m == 0.0 <==> dir == "/"
    ensures m == 1.0 <==> dir != "/"
  {
    if dir == "/" then 0.0 else 1.0
  }

  /** Segments that are path components: neither empty nor `.`. */
  function Components(segments: seq<string>): nat
  {
    if |segments| == 0 then 0
    else (if segments[0] == "" || segments[0] == "." then 0 else 1) + Components(segments[1..])
  }

  /** `len(Path(dir).parts)` for a POSIX path: the root (if any) plus one part per component. */
  function Depth(dir: string): nat
  {
    (if |dir| > 0 && dir[0] == '/' then 1 else 0) + Components(Split(dir, '/'))
  }

  lemma {:induction false} ComponentsConcat(a: seq<string>, b: seq<string>)
    ensures Components(a + b) == Components(a) + Components(b)
    decreases |a|
  {
    if |a| == 0 {
      assert a + b == b;
    } else {
      assert (a + b)[1..] == a[1..] + b;
      ComponentsConcat(a[1..], b);
    }
  }

  /** The root directory has depth 1 and the missing directory (empty file view) depth 0. */
  lemma RootDepth()
    ensures Depth("/") == 1 && Depth("") == 0
  {
    assert Split("/", '/') == ["", ""] by {
      assert "/"[1..] == "";
    }
  }

  /** A sub directory named by a proper component lies one level deeper than its parent. */
  lemma ChildDepth(dir: string, name: string)
    requires |dir| > 0 && name != "" && name != "."
    requires forall k :: 0 <= k < |name| ==> name[k] != '/'
    ensures Depth(dir + "/" + name) == Depth(dir) + 1
  {
    SplitAtSep(dir, '/', name);
    SplitNoSep(name, '/');
    ComponentsConcat(Split(dir, '/'), [name]);
    assert dir + "/" + name == dir + ['/'] + name;
    assert (dir + "/" + name)[0] == dir[0];
  }

  /** The creation limits of the all files view. */
  datatype CreateConfig = CreateConfig(
    uploadFiles: map<string, real>,
    maxDirectoryCount: Option<int>,
    maxCreateDepth: Option<int>)

  datatype CreateModifiers = CreateModifiers(upload: real, createDirectory: real)

  /**
   * `_update_create_actions`: in a directory the user may change (the new button is shown
   * and a modify pattern accepts the directory) uploading is on iff there are files to upload,
   * and creating a directory is on iff the directory count and depth limits allow it;
   * elsewhere both are off.
   */
  function CreateActions(rows: seq<Row>, dir: string, newButton: bool, modifiable: string -> bool, cfg: CreateConfig)
    : (r: CreateModifiers)
    ensures r.upload == Flag(newButton && modifiable(dir) && |cfg.uploadFiles| > 0)
    ensures r.createDirectory ==
              Flag(newButton && modifiable(dir)
                   && (cfg.maxDirectoryCount.None? || |GetDirs(rows, None)| < cfg.maxDirectoryCount.value)
                   && (cfg.maxCreateDepth.None? || Depth(dir) <= cfg.maxCreateDepth.value))
  {
    if newButton && modifiable(dir) then
      var depth := Depth(dir);
      var count := |GetDirs(rows, None)|;
      CreateModifiers(
        if |cfg.uploadFiles| > 0 then 1.0 else 0.0,
        if (cfg.maxDirectoryCount.None? || count < cfg.maxDirectoryCount.value)
           && (cfg.maxCreateDepth.None? || depth <= cfg.maxCreateDepth.value)
        then 1.0 else 0.0)
    else
      CreateModifiers(0.0, 0.0)
  }

  /**
   * A directory at the maximum creation depth may get sub directories (when it is modifiable and
   * no directory count limit applies), but they may not.
   */
  lemma CreateDepthStops(rows: seq<Row>, dir: string, name: string, modifiable: string -> bool, cfg: CreateConfig)
    requires |dir| > 0 && name != "" && name != "."
    requires forall k :: 0 <= k < |name| ==> name[k] != '/'
    requires cfg.maxCreateDepth == Some(Depth(dir))
    ensures cfg.maxDirectoryCount.None? && modifiable(dir) ==> CreateActions(rows, dir, true, modifiable, cfg).createDirectory == 1.0
    ensures CreateActions(rows, dir + "/" + name, true, modifiable, cfg).createDirectory == 0.0
  {
    ChildDepth(dir, name);
  }

  // ---------------------------------------------------------------- file views

  /** What a file view's `adapt_before` reads off the page. */
  datatype FilesPage = FilesPage(
    rows: seq<Row>,
    maxScroll: real,
    scrollTop: real,
    currentDirectory: string,
    newButton: bool)

  /** The configuration a file view carries: modify patterns (as a predicate), favour factor, scroll threshold. */
  datatype ViewConfig = ViewConfig(modifiable: string -> bool, favorFactor: real, minScrollSpace: real)

  /** The modifiers both file views compute the same way. */
  datatype CommonModifiers = CommonModifiers(
    scroll: real, favorites: FavoriteModifiers, reading: ReadModifiers, deleting: DeleteModifiers)

  function Common(page: FilesPage, cfg: ViewConfig): (c: CommonModifiers)
    ensures c.scroll == ScrollModifier(ScrollSpace(page.maxScroll, page.scrollTop), cfg.minScrollSpace)
    ensures c.favorites == FavoriteActions(page.rows, cfg.favorFactor)
    ensures c.reading == ReadActions(page.rows) && c.deleting == DeleteActions(page.rows, cfg.modifiable)
  {
    CommonModifiers(
      ScrollModifier(ScrollSpace(page.maxScroll, page.scrollTop), cfg.minScrollSpace),
      FavoriteActions(page.rows, cfg.favorFactor),
      ReadActions(page.rows),
      DeleteActions(page.rows, cfg.modifiable))
  }

  /** Positions in the all files view. */
  const AllScroll: nat := 0
  const AllFavorite: nat := 1
  const AllRemoveFavorite: nat := 2
  const AllOpenDirectory: nat := 3
  const AllNavRoot: nat := 4
  const AllDownloadFile: nat := 5
  const AllDeleteFile: nat := 6
  const AllUploadFile: nat := 7
  const AllDownloadDirectory: nat := 8
  const AllDeleteDirectory: nat := 9
  const AllCreateDirectory: nat := 10
  const AllViewDetails: nat := 11
  const AllReturn: nat := 12

  predicate AllFilesValid(v: ActivityState)
  {
    v.Valid() && v.base.Size() == 13 && v.ret == AllReturn
  }

  /** The all files view with its default weights (which sum to 1) and boost 1.2. */
  function NewAllFilesView(): (v: ActivityState)
    ensures AllFilesValid(v) && v.retIncrease == 1.2 && Sum(v.base.weights) == 1.0
  {
    NewActivity([0.1, 0.05, 0.05, 0.1, 0.075, 0.1, 0.075, 0.075, 0.05, 0.05, 0.075, 0.125, 0.075], None, AllReturn, 1.2)
  }

  /**
   * `AllFilesView.adapt_before`: every transition but the return one is recomputed from the
   * page; the return modifier keeps its boost.
   */
  function AllFilesAdaptBefore(v: ActivityState, page: FilesPage, cfg: ViewConfig, create: CreateConfig): (r: ActivityState)
    requires AllFilesValid(v)
    ensures AllFilesValid(r) && r.retIncrease == v.retIncrease
    ensures r.base.weights == v.base.weights && r.base.initial == v.base.initial
    ensures r.base.modifiers[AllReturn] == v.base.modifiers[AllReturn]
    ensures r.base.modifiers[AllScroll] == 0.0 <==> ScrollSpace(page.maxScroll, page.scrollTop) < cfg.minScrollSpace
    ensures r.base.modifiers[AllNavRoot] == 0.0 <==> page.currentDirectory == "/"
    ensures r.base.modifiers[AllViewDetails] == ReadActions(page.rows).viewDetails
    ensures r.base.modifiers[AllOpenDirectory] == r.base.modifiers[AllDownloadDirectory]
              == ReadActions(page.rows).openDirectory
    ensures r.base.modifiers[AllDownloadFile] == ReadActions(page.rows).downloadFile
    ensures r.base.modifiers[AllDeleteDirectory] == DeleteActions(page.rows, cfg.modifiable).deleteDirectory
    ensures r.base.modifiers[AllDeleteFile] == DeleteActions(page.rows, cfg.modifiable).deleteFile
    ensures r.base.modifiers[AllFavorite] == FavoriteActions(page.rows, cfg.favorFactor).favorite
    ensures r.base.modifiers[AllRemoveFavorite] == FavoriteActions(page.rows, cfg.favorFactor).removeFavorite
    ensures r.base.modifiers[AllUploadFile] ==
              CreateActions(page.rows, page.currentDirectory, page.newButton, cfg.modifiable, create).upload
    ensures r.base.modifiers[AllCreateDirectory] ==
              CreateActions(page.rows, page.currentDirectory, page.newButton, cfg.modifiable, create).createDirectory
  {
    var c := Common(page, cfg);
    var k := CreateActions(page.rows, page.currentDirectory, page.newButton, cfg.modifiable, create);
    var m := [c.scroll, c.favorites.favorite, c.favorites.removeFavorite, c.reading.openDirectory,
              NavRootModifier(page.currentDirectory), c.reading.downloadFile, c.deleting.deleteFile, k.upload,
              c.reading.downloadDirectory, c.deleting.deleteDirectory, k.createDirectory, c.reading.viewDetails,
              v.base.modifiers[AllReturn]];
    v.(base := v.base.(modifiers := m))
  }

  /** Positions in the favourites and shared-by-me views (`FilesView`). */
  const FilesScroll: nat := 0
  const FilesFavorite: nat := 1
  const FilesRemoveFavorite: nat := 2
  const FilesOpenDirectory: nat := 3
  const FilesDownloadFile: nat := 4
  const FilesDeleteFile: nat := 5
  const FilesDownloadDirectory: nat := 6
  const FilesDeleteDirectory: nat := 7
  const FilesViewDetails: nat := 8
  const FilesReturn: nat := 9

  predicate FilesValid(v: ActivityState)
  {
    v.Valid() && v.base.Size() == 10 && v.ret == FilesReturn
  }

  /** A files view with its default weights (which sum to 1) and boost 1.2. */
  function NewFilesView(): (v: ActivityState)
    ensures FilesValid(v) && v.retIncrease == 1.2 && Sum(v.base.weights) == 1.0
  {
    NewActivity([0.15, 0.05, 0.05, 0.2, 0.1, 0.1, 0.05, 0.05, 0.15, 0.1], None, FilesReturn, 1.2)
  }

  /** `FilesView.adapt_before`: the all files rules without navigation to the root, upload or create. */
  function FilesAdaptBefore(v: ActivityState, page: FilesPage, cfg: ViewConfig): (r: ActivityState)
    requires FilesValid(v)
    ensures FilesValid(r) && r.retIncrease == v.retIncrease
    ensures r.base.weights == v.base.weights && r.base.initial == v.base.initial
    ensures r.base.modifiers[FilesReturn] == v.base.modifiers[FilesReturn]
    ensures r.base.modifiers[FilesScroll] == 0.0 <==> ScrollSpace(page.maxScroll, page.scrollTop) < cfg.minScrollSpace
    ensures r.base.modifiers[FilesViewDetails] == ReadActions(page.rows).viewDetails
    ensures r.base.modifiers[FilesOpenDirectory] == r.base.modifiers[FilesDownloadDirectory]
              == ReadActions(page.rows).openDirectory
    ensures r.base.modifiers[FilesDownloadFile] == ReadActions(page.rows).downloadFile
    ensures r.base.modifiers[FilesDeleteDirectory] == DeleteActions(page.rows, cfg.modifiable).deleteDirectory
    ensures r.base.modifiers[FilesDeleteFile] == DeleteActions(page.rows, cfg.modifiable).deleteFile
    ensures r.base.modifiers[FilesFavorite] == FavoriteActions(page.rows, cfg.favorFactor).favorite
    ensures r.base.modifiers[FilesRemoveFavorite] == FavoriteActions(page.rows, cfg.favorFactor).removeFavorite
  {
    var c := Common(page, cfg);
    var m := [c.scroll, c.favorites.favorite, c.favorites.removeFavorite, c.reading.openDirectory,
              c.reading.downloadFile, c.deleting.deleteFile, c.reading.downloadDirectory, c.deleting.deleteDirectory,
              c.reading.viewDetails, v.base.modifiers[FilesReturn]];
    v.(base := v.base.(modifiers := m))
  }

  // ---------------------------------------------------------------- shared with me

  const InScroll: nat := 0
  const InAccept: nat := 1
  const InDecline: nat := 2
  const InReturn: nat := 3

  predicate SharingInValid(v: ActivityState)
  {
    v.Valid() && v.base.Size() == 4 && v.ret == InReturn
  }

  /** The shared-with-me view (scroll 0.15, accept 0.4, decline 0.35, return 0.1, boost 1.2). */
  function NewSharingInView(): (v: ActivityState)
    ensures SharingInValid(v) && Sum(v.base.weights) == 1.0
    ensures v.base.weights == [0.15, 0.4, 0.35, 0.1] && v.retIncrease == 1.2
  {
    NewActivity([0.15, 0.4, 0.35, 0.1], None, InReturn, 1.2)
  }

  /**
   * `SharingInView.adapt_before`: accept and decline are on together iff a share is pending;
   * with none pending the scroll modifier is quadrupled, so it stays 0 at the bottom of the page.
   */
  function SharingInAdaptBefore(v: ActivityState, space: real, minSpace: real, pending: nat): (r: ActivityState)
    requires SharingInValid(v)
    ensures SharingInValid(r) && r.retIncrease == v.retIncrease
    ensures r.base.weights == v.base.weights && r.base.initial == v.base.initial
    ensures r.base.modifiers[InReturn] == v.base.modifiers[InReturn]
    ensures r.base.modifiers[InAccept] == r.base.modifiers[InDecline] == Flag(pending > 0)
    ensures r.base.modifiers[InScroll] == 0.0 <==> space < minSpace
    ensures space >= minSpace ==> r.base.modifiers[InScroll] == if pending > 0 then 1.0 else 4.0
  {
    var scroll := ScrollModifier(space, minSpace);
    var s := SetModifier(v.base, InScroll, scroll);
    if pending > 0 then
      v.(base := SetModifier(SetModifier(s, InAccept, 1.0), InDecline, 1.0))
    else
      var t := SetModifier(SetModifier(s, InAccept, 0.0), InDecline, 0.0);
      v.(base := SetModifier(t, InScroll, t.modifiers[InScroll] * 4.0))
  }

  // ---------------------------------------------------------------- file details

  const DetailsComments: nat := 0
  const DetailsSharing: nat := 1
  const DetailsVersions: nat := 2
  const DetailsClose: nat := 3

  predicate DetailsValid(v: ActivityState)
  {
    v.Valid() && v.base.Size() == 4 && v.ret == DetailsClose
  }

  /** The file details view (comments 0.25, sharing 0.4, versions 0.25, close 0.1, boost 1.2). */
  function NewFileDetailsView(): (v: ActivityState)
    ensures DetailsValid(v) && Sum(v.base.weights) == 1.0
    ensures v.base.weights == [0.25, 0.4, 0.25, 0.1] && v.retIncrease == 1.2
  {
    NewActivity([0.25, 0.4, 0.25, 0.1], None, DetailsClose, 1.2)
  }

  /** `FileDetailsView.adapt_before`: each tab transition is on iff the tab is available. */
  function FileDetailsAdaptBefore(v: ActivityState, comments: bool, sharing: bool, versions: bool): (r: ActivityState)
    requires DetailsValid(v)
    ensures DetailsValid(r) && r.retIncrease == v.retIncrease
    ensures r.base.weights == v.base.weights && r.base.initial == v.base.initial
    ensures r.base.modifiers[DetailsClose] == v.base.modifiers[DetailsClose]
    ensures r.base.modifiers[DetailsComments] == 1.0 <==> comments
    ensures r.base.modifiers[DetailsSharing] == 1.0 <==> sharing
    ensures r.base.modifiers[DetailsVersions] == 1.0 <==> versions
    ensures forall i :: 0 <= i < 3 ==> r.base.modifiers[i] == 0.0 || r.base.modifiers[i] == 1.0
  {
    v.(base := Enable(Enable(Enable(v.base, DetailsComments, comments), DetailsSharing, sharing), DetailsVersions, versions))
  }

  // ---------------------------------------------------------------- sharing details

  const Share: nat := 0
  const Unshare: nat := 1
  const SharingReturn: nat := 2

  predicate SharingValid(v: ActivityState)
  {
    v.Valid() && v.base.Size() == 3 && v.ret == SharingReturn
  }

  /** The sharing details tab (share 0.4, unshare 0.35, return 0.25, boost 1.2). */
  function NewSharingDetails(): (v: ActivityState)
    ensures SharingValid(v) && Sum(v.base.weights) == 1.0
    ensures v.base.weights == [0.4, 0.35, 0.25] && v.retIncrease == 1.2
  {
    NewActivity([0.4, 0.35, 0.25], None, SharingReturn, 1.2)
  }

  /**
   * `SharingDetails.adapt_before`: unsharing is on iff the item is shared with someone;
   * sharing is on iff the item is sharable, some configured user does not have it yet, and
   * the item is shared with fewer than `max_shares` users (when a maximum is set).
   */
  function SharingDetailsAdaptBefore(
    v: ActivityState, sharable: bool, users: map<string, real>, shared: seq<string>, maxShares: Option<int>)
    : (r: ActivityState)
    requires SharingValid(v)
    ensures SharingValid(r) && r.retIncrease == v.retIncrease
    ensures r.base.weights == v.base.weights && r.base.initial == v.base.initial
    ensures r.base.modifiers[SharingReturn] == v.base.modifiers[SharingReturn]
    ensures r.base.modifiers[Unshare] == Flag(|shared| > 0)
    ensures r.base.modifiers[Share] ==
              Flag(sharable && (exists u :: u in users && u !in shared)
                   && (maxShares.None? || |shared| < maxShares.value))
  {
    SharableEmptyIff(users, shared);
    var s := Enable(v.base, Unshare, |shared| > 0);
    var canShare := sharable && |SharableUsers(users, shared)| > 0
                    && (maxShares.None? || |shared| < maxShares.value);
    v.(base := Enable(s, Share, canShare))
  }

  // ---------------------------------------------------------------- close check

  /** The content ids of the three file views the details panel can be closed into. */
  const FilesContent := "app-content-files"
  const FavoritesContent := "app-content-favorites"
  const SharingOutContent := "app-content-sharingout"

  /** The noop transitions of `CloseCheckState`: one per known view and the fallback. */
  datatype CloseCheck = CloseCheck(allFiles: Transition, favorites: Transition, sharingOut: Transition, fallback: Transition)

  /** The close check for the named view states; each noop is named `<prefix>_<target>`. */
  function NewCloseCheck(allFiles: string, favorites: string, sharingOut: string, fallback: string, prefix: string)
    : (c: CloseCheck)
    ensures c.allFiles == Transition(prefix + "_" + allFiles, Some(allFiles))
    ensures c.favorites == Transition(prefix + "_" + favorites, Some(favorites))
    ensures c.sharingOut == Transition(prefix + "_" + sharingOut, Some(sharingOut))
    ensures c.fallback == Transition(prefix + "_unknown_view", Some(fallback))
  {
    CloseCheck(
      Transition(prefix + "_" + allFiles, Some(allFiles)),
      Transition(prefix + "_" + favorites, Some(favorites)),
      Transition(prefix + "_" + sharingOut, Some(sharingOut)),
      Transition(prefix + "_unknown_view", Some(fallback)))
  }

  /**
   * `CloseCheckState.next`: the noop of the view whose content id is active, or the fallback
   * for an unknown id and for a page without an active view (`None`).
   */
  function CloseCheckNext(c: CloseCheck, contentId: Option<string>): (t: Transition)
    ensures contentId == Some(FilesContent) ==> t == c.allFiles
    ensures contentId == Some(FavoritesContent) ==> t == c.favorites
    ensures contentId == Some(SharingOutContent) ==> t == c.sharingOut
    ensures contentId.None? || contentId.value !in {FilesContent, FavoritesContent, SharingOutContent} ==> t == c.fallback
  {
    match contentId
    case None => c.fallback
    case Some(id) =>
      if id == FilesContent then c.allFiles
      else if id == FavoritesContent then c.favorites
      else if id == SharingOutContent then c.sharingOut
      else c.fallback
  }

  /** With the default fallback, closing the details always leads to a view state or back to the menu. */
  lemma CloseCheckTargets(allFiles: string, favorites: string, sharingOut: string, prefix: string, contentId: Option<string>)
    ensures var t := CloseCheckNext(NewCloseCheck(allFiles, favorites, sharingOut, "selecting_menu", prefix), contentId);
            t.target in {Some(allFiles), Some(favorites), Some(sharingOut), Some("selecting_menu")}
  {
  }

  // ---------------------------------------------------------------- upload menu

  const NewFile: nat := 0
  const KeepNew: nat := 1
  const KeepBoth: nat := 2
  const KeepOld: nat := 3

  /** The upload menu: the never-drawn `new_file` noop, then keep new, keep both and keep old. */
  datatype UploadMenu = UploadMenu(transitions: seq<Transition>, weights: seq<real>)
  {
    predicate Valid() { |transitions| == |weights| == 4 }
  }

  /** The upload menu; `new_file` leads where `keep_new` leads and has weight 0. */
  function NewUploadMenu(keepNew: Transition, keepBoth: Transition, keepOld: Transition, newFileName: string): (u: UploadMenu)
    ensures u.Valid() && u.transitions[KeepNew] == keepNew && u.transitions[KeepBoth] == keepBoth
    ensures u.transitions[KeepOld] == keepOld
    ensures u.transitions[NewFile] == Transition(newFileName, keepNew.target)
    ensures u.weights[NewFile] == 0.0 && Sum(u.weights) == 1.0
  {
    UploadMenu([Transition(newFileName, keepNew.target), keepNew, keepBoth, keepOld], [0.0, 0.6, 0.3, 0.1])
  }

  /**
   * `UploadMenu.next`, as the position of the chosen transition: without a file-exists dialog
   * the upload is of a new file; with the dialog the engine's weighted draw `sampled` decides.
   */
  function UploadMenuNext(dialogShown: bool, sampled: nat): (i: nat)
    requires sampled < 4
    ensures i < 4
    ensures !dialogShown ==> i == NewFile
    ensures dialogShown ==> i == sampled
  {
    if dialogShown then sampled else NewFile
  }

  /**
   * The `new_file` noop is chosen exactly when no dialog is shown: its zero weight keeps the
   * engine from drawing it, so with the dialog the choice is one of the three keep options.
   */
  lemma NewFileOnlyWithoutDialog(keepNew: Transition, keepBoth: Transition, keepOld: Transition, name: string,
                                 dialogShown: bool, sampled: nat)
    requires sampled < 4 && NewUploadMenu(keepNew, keepBoth, keepOld, name).weights[sampled] > 0.0
    ensures UploadMenuNext(dialogShown, sampled) == NewFile <==> !dialogShown
  {
  }
}

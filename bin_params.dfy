/**
 * The static table of createBinPatchValues: for each qmake variable, the
 * tag Qt stores in front of the path in its binaries and the optional
 * sub-directory appended to the new path.
 */
module BinParams {
  import opened Wrappers

  /** A row of createBinPatchValues' table: qmake variable, tag Qt stores before the path, sub-directory. */
  datatype Param = Param(name: string, prefix: string, dir: Option<string>)

  /** The length of every tag of the table. */
  const TagLen: nat := 12

  /** The table of createBinPatchValues, in its order. */
  const Params: seq<Param> := [
    Param("QT_INSTALL_PREFIX",       "qt_prfxpath=", None),
    Param("QT_INSTALL_ARCHDATA",     "qt_adatpath=", None),
    Param("QT_INSTALL_DOCS",         "qt_docspath=", Some("doc")),
    Param("QT_INSTALL_HEADERS",      "qt_hdrspath=", Some("include")),
    Param("QT_INSTALL_LIBS",         "qt_libspath=", Some("lib")),
    Param("QT_INSTALL_LIBEXECS",     "qt_lbexpath=", Some("libexec")),
    Param("QT_INSTALL_BINS",         "qt_binspath=", Some("bin")),
    Param("QT_INSTALL_PLUGINS",      "qt_plugpath=", Some("plugins")),
    Param("QT_INSTALL_IMPORTS",      "qt_impspath=", Some("imports")),
    Param("QT_INSTALL_QML",          "qt_qml2path=", Some("qml")),
    Param("QT_INSTALL_DATA",         "qt_datapath=", None),
    Param("QT_INSTALL_TRANSLATIONS", "qt_trnspath=", Some("translations")),
    Param("QT_INSTALL_EXAMPLES",     "qt_xmplpath=", Some("examples")),
    Param("QT_INSTALL_DEMOS",        "qt_demopath=", Some("demos")),
    Param("QT_INSTALL_TESTS",        "qt_tstspath=", Some("tests")),
    Param("QT_HOST_PREFIX",          "qt_hpfxpath=", None),
    Param("QT_HOST_BINS",            "qt_hbinpath=", Some("bin")),
    Param("QT_HOST_DATA",            "qt_hdatpath=", None),
    Param("QT_HOST_LIBS",            "qt_hlibpath=", Some("lib"))
  ]

  /** The tags all have TagLen characters. */
  ghost predicate TagsSized(ps: seq<Param>)
  {
    forall i :: 0 <= i < |ps| ==> |ps[i].prefix| == TagLen
  }

  /** The tags all have TagLen characters and no two rows share one. */
  ghost predicate DistinctTags(ps: seq<Param>)
  {
    TagsSized(ps) && forall i, j :: 0 <= i < j < |ps| ==> ps[i].prefix != ps[j].prefix
  }

  ghost predicate NulFreeRow(p: Param)
  {
    '\0' !in p.prefix && (p.dir.Some? ==> '\0' !in p.dir.value)
  }

  /** Neither tags nor sub-directories hold a NUL. */
  ghost predicate NulFreeRows(ps: seq<Param>)
  {
    forall i :: 0 <= i < |ps| ==> NulFreeRow(ps[i])
  }

  /** The table has 19 rows, each tag TagLen characters long. */
  lemma ParamsLen()
    ensures |Params| == 19
    ensures TagsSized(Params)
  {
  }

  /** No two rows of the table share a tag. */
  lemma ParamsDistinct()
    ensures forall i, j :: 0 <= i < j < |Params| ==> Params[i].prefix != Params[j].prefix
  {
  }

  /** No tag or sub-directory of the table holds a NUL. */
  lemma ParamsNul()
    ensures NulFreeRows(Params)
  {
    TagsNul();
    DirsNul();
    forall i | 0 <= i < |Params| ensures NulFreeRow(Params[i]) {
      NoNulIn(Params[i].prefix);
    }
  }

  lemma TagsNul()
    ensures forall i :: 0 <= i < |Params| ==> forall k :: 0 <= k < |Params[i].prefix| ==> Params[i].prefix[k] != '\0'
  {
  }

  lemma DirsNul()
    ensures forall i :: 0 <= i < |Params| && Params[i].dir.Some? ==> '\0' !in Params[i].dir.value
  {
  }

  lemma NoNulIn(s: string)
    requires forall k :: 0 <= k < |s| ==> s[k] != '\0'
    ensures '\0' !in s
  {
  }
}

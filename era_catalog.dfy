/**
 * The 247 constants of `DateUtil.JapaneseYearType`, in declaration order,
 * and what `match` returns over them.
 *
 * The declaration is not chronological. It lists TAIKA (645) .. GENCHU
 * (1384) first and then goes back to RYAKUO (1338); SHITOKU (1384/3/19) is
 * declared after GENCHU (1384/5/18) yet starts before it. The table is
 * therefore described by spans: each declared stretch starts within known
 * bounds, and `match` over the whole table is assembled from its parts.
 */
module EraCatalog {
  import opened Wrappers
  import opened Calendar
  import opened JapaneseEra

  // ----- Spans of start times -----

  /** Every entry of `s` starts at `lo` or later. */
  predicate StartsFrom(s: seq<Era>, lo: int) {
    forall k | 0 <= k < |s| :: lo <= StartTime(s[k])
  }

  /** Every entry of `s` starts at `hi` or earlier. */
  predicate StartsBy(s: seq<Era>, hi: int) {
    forall k | 0 <= k < |s| :: StartTime(s[k]) <= hi
  }

  lemma StartsFromAppend(a: seq<Era>, b: seq<Era>, lo: int)
    requires StartsFrom(a, lo) && StartsFrom(b, lo)
    ensures StartsFrom(a + b, lo)
  {
    forall k | 0 <= k < |a + b|
      ensures lo <= StartTime((a + b)[k])
    {
      if k < |a| {
        assert (a + b)[k] == a[k];
      } else {
        assert (a + b)[k] == b[k - |a|];
      }
    }
  }

  lemma StartsByWiden(s: seq<Era>, hi: int, hi': int)
    requires StartsBy(s, hi) && hi <= hi'
    ensures StartsBy(s, hi')
  {
  }

  lemma StartsByAppend(a: seq<Era>, b: seq<Era>, hi: int)
    requires StartsBy(a, hi) && StartsBy(b, hi)
    ensures StartsBy(a + b, hi)
  {
    forall k | 0 <= k < |a + b|
      ensures StartTime((a + b)[k]) <= hi
    {
      if k < |a| {
        assert (a + b)[k] == a[k];
      } else {
        assert (a + b)[k] == b[k - |a|];
      }
    }
  }

  /** Each entry's ordinal is its position in the table, the stretch starting at `offset`. */
  predicate Numbered(s: seq<Era>, offset: int) {
    forall k | 0 <= k < |s| :: s[k].ordinal == offset + k
  }

  lemma NumberedAppend(a: seq<Era>, b: seq<Era>, offset: int)
    requires Numbered(a, offset) && Numbered(b, offset + |a|)
    ensures Numbered(a + b, offset)
  {
    forall k | 0 <= k < |a + b|
      ensures (a + b)[k].ordinal == offset + k
    {
      if k < |a| {
        assert (a + b)[k] == a[k];
      } else {
        assert (a + b)[k] == b[k - |a|];
      }
    }
  }

  /** The start is a calendar day of the common era. */
  predicate Dated(e: Era) {
    e.startYear >= 1 && e.StartDate().Valid()
  }

  /** Every entry of `s` starts on a calendar day of the common era. */
  predicate AllDated(s: seq<Era>) {
    forall k | 0 <= k < |s| :: Dated(s[k])
  }

  lemma AllDatedAppend(a: seq<Era>, b: seq<Era>)
    requires AllDated(a) && AllDated(b)
    ensures AllDated(a + b)
  {
    forall k | 0 <= k < |a + b|
      ensures Dated((a + b)[k])
    {
      if k < |a| {
        assert (a + b)[k] == a[k];
      } else {
        assert (a + b)[k] == b[k - |a|];
      }
    }
  }

  // ----- Latest over parts of a table -----

  /** The later of two candidates; on a tie, the first. */
  function Better(a: Option<Era>, b: Option<Era>): (r: Option<Era>)
    ensures r == a || r == b
    ensures r.None? <==> a.None? && b.None?
    ensures a.Some? && b.Some? ==> StartTime(r.value) == if StartTime(a.value) < StartTime(b.value) then StartTime(b.value) else StartTime(a.value)
  {
    if b.Some? && (a.None? || StartTime(b.value) > StartTime(a.value)) then b else a
  }

  /** The match over a table split in two is the better of the matches over the parts. */
  lemma {:induction false} LatestAppend(a: seq<Era>, b: seq<Era>, time: int)
    ensures Latest(a + b, time) == Better(Latest(a, time), Latest(b, time))
    decreases |b|
  {
    if b == [] {
      assert a + b == a;
    } else {
      var b' := b[..|b| - 1];
      assert (a + b)[..|a + b| - 1] == a + b';
      assert (a + b)[|a + b| - 1] == b[|b| - 1];
      LatestAppend(a, b', time);
    }
  }

  /** Nothing matches before the earliest start. */
  lemma LatestBeforeAll(s: seq<Era>, time: int, lo: int)
    requires StartsFrom(s, lo) && time < lo
    ensures Latest(s, time) == None
  {
    LatestIsMatch(s, time);
  }

  /** An entry that starts after everything before it, and by `time`, is the match. */
  lemma LatestOfLast(a: seq<Era>, x: Era, time: int, hi: int)
    requires StartsBy(a, hi) && hi < StartTime(x) <= time
    ensures Latest(a + [x], time) == Some(x)
  {
    assert (a + [x])[..|a|] == a;
    var m := Latest(a, time);
    if m.Some? {
      var k :| 0 <= k < |a| && a[k] == m.value;
    }
  }

  /** Appending entries that start before the match keeps the match. */
  lemma LatestKeepsEarlier(a: seq<Era>, b: seq<Era>, time: int, x: Era, hi: int)
    requires Latest(a, time) == Some(x) && StartsBy(b, hi) && hi < StartTime(x)
    ensures Latest(a + b, time) == Some(x)
  {
    LatestAppend(a, b, time);
    var m := Latest(b, time);
    if m.Some? {
      var k :| 0 <= k < |b| && b[k] == m.value;
    }
  }

  /** Appending entries that start after `time` keeps the match. */
  lemma LatestKeepsLater(a: seq<Era>, b: seq<Era>, time: int, x: Era, lo: int)
    requires Latest(a, time) == Some(x) && StartsFrom(b, lo) && time < lo
    ensures Latest(a + b, time) == Some(x)
  {
    LatestAppend(a, b, time);
    LatestBeforeAll(b, time, lo);
  }

  // ----- The table -----

  const TAIKA: Era := Era(0, 645, 7, 17)
  const KOWA: Era := Era(163, 1381, 3, 6)
  const GENCHU: Era := Era(164, 1384, 5, 18)
  const RYAKUO: Era := Era(165, 1338, 10, 11)
  const SHITOKU: Era := Era(177, 1384, 3, 19)
  const KAKYO: Era := Era(178, 1387, 10, 5)
  const TAISHO: Era := Era(244, 1912, 7, 30)
  const SHOWA: Era := Era(245, 1926, 12, 25)
  const HEISEI: Era := Era(246, 1989, 1, 8)

  /** Lines 592-649: TAIKA .. KONIN. */
  const Early0: seq<Era> := [
    Era(0, 645, 7, 17),
    Era(1, 650, 3, 22),
    Era(2, 686, 8, 14),
    Era(3, 701, 5, 3),
    Era(4, 704, 6, 16),
    Era(5, 708, 2, 7),
    Era(6, 715, 10, 3),
    Era(7, 717, 12, 24),
    Era(8, 724, 3, 3),
    Era(9, 729, 9, 2),
    Era(10, 749, 5, 4),
    Era(11, 749, 8, 19),
    Era(12, 757, 9, 6),
    Era(13, 765, 2, 1),
    Era(14, 767, 9, 13),
    Era(15, 770, 10, 23),
    Era(16, 781, 1, 30),
    Era(17, 782, 9, 30),
    Era(18, 806, 6, 8),
    Era(19, 810, 10, 20)
  ]

  lemma Early0From()
    ensures StartsFrom(Early0, StartTime(TAIKA))
  {
  }

  lemma Early0By()
    ensures StartsBy(Early0, StartTime(KOWA))
  {
  }

  lemma Early0Numbered()
    ensures Numbered(Early0, 0)
  {
  }

  lemma Early0Dated()
    ensures AllDated(Early0)
  {
  }

  /** Lines 652-709: TENCHO .. ANNA. */
  const Early1: seq<Era> := [
    Era(20, 824, 2, 8),
    Era(21, 834, 2, 14),
    Era(22, 848, 7, 16),
    Era(23, 851, 6, 1),
    Era(24, 854, 12, 23),
    Era(25, 857, 3, 20),
    Era(26, 859, 5, 20),
    Era(27, 877, 6, 1),
    Era(28, 885, 3, 11),
    Era(29, 889, 5, 30),
    Era(30, 898, 5, 20),
    Era(31, 901, 8, 31),
    Era(32, 923, 5, 29),
    Era(33, 931, 5, 16),
    Era(34, 938, 6, 22),
    Era(35, 947, 5, 15),
    Era(36, 957, 11, 21),
    Era(37, 961, 3, 5),
    Era(38, 964, 8, 19),
    Era(39, 968, 9, 8)
  ]

  lemma Early1From()
    ensures StartsFrom(Early1, StartTime(TAIKA))
  {
  }

  lemma Early1By()
    ensures StartsBy(Early1, StartTime(KOWA))
  {
  }

  lemma Early1Numbered()
    ensures Numbered(Early1, 20)
  {
  }

  lemma Early1Dated()
    ensures AllDated(Early1)
  {
  }

  /** Lines 712-769: TENROKU .. KANTOKU. */
  const Early2: seq<Era> := [
    Era(40, 970, 5, 3),
    Era(41, 974, 1, 16),
    Era(42, 976, 8, 11),
    Era(43, 978, 12, 31),
    Era(44, 983, 5, 29),
    Era(45, 985, 5, 19),
    Era(46, 987, 5, 5),
    Era(47, 989, 9, 10),
    Era(48, 990, 11, 26),
    Era(49, 995, 3, 25),
    Era(50, 999, 2, 1),
    Era(51, 1004, 8, 8),
    Era(52, 1013, 2, 8),
    Era(53, 1017, 5, 21),
    Era(54, 1021, 3, 17),
    Era(55, 1024, 8, 19),
    Era(56, 1028, 8, 18),
    Era(57, 1037, 5, 9),
    Era(58, 1040, 12, 16),
    Era(59, 1044, 12, 16)
  ]

  lemma Early2From()
    ensures StartsFrom(Early2, StartTime(TAIKA))
  {
  }

  lemma Early2By()
    ensures StartsBy(Early2, StartTime(KOWA))
  {
  }

  lemma Early2Numbered()
    ensures Numbered(Early2, 40)
  {
  }

  lemma Early2Dated()
    ensures AllDated(Early2)
  {
  }

  /** Lines 772-829: EISHO_1046 .. GENEI. */
  const Early3: seq<Era> := [
    Era(60, 1046, 5, 22),
    Era(61, 1053, 2, 2),
    Era(62, 1058, 9, 19),
    Era(63, 1065, 9, 4),
    Era(64, 1069, 5, 6),
    Era(65, 1074, 9, 16),
    Era(66, 1077, 12, 5),
    Era(67, 1081, 3, 22),
    Era(68, 1084, 3, 15),
    Era(69, 1087, 5, 11),
    Era(70, 1095, 1, 23),
    Era(71, 1097, 1, 3),
    Era(72, 1097, 12, 27),
    Era(73, 1099, 9, 15),
    Era(74, 1104, 3, 8),
    Era(75, 1106, 5, 13),
    Era(76, 1108, 9, 9),
    Era(77, 1110, 7, 31),
    Era(78, 1113, 8, 25),
    Era(79, 1118, 4, 25)
  ]

  lemma Early3From()
    ensures StartsFrom(Early3, StartTime(TAIKA))
  {
  }

  lemma Early3By()
    ensures StartsBy(Early3, StartTime(KOWA))
  {
  }

  lemma Early3Numbered()
    ensures Numbered(Early3, 60)
  {
  }

  lemma Early3Dated()
    ensures AllDated(Early3)
  {
  }

  /** Lines 832-889: HOAN .. KAO. */
  const Early4: seq<Era> := [
    Era(80, 1120, 5, 9),
    Era(81, 1124, 5, 18),
    Era(82, 1126, 2, 15),
    Era(83, 1131, 2, 28),
    Era(84, 1132, 9, 21),
    Era(85, 1135, 6, 10),
    Era(86, 1141, 8, 13),
    Era(87, 1142, 5, 25),
    Era(88, 1144, 3, 28),
    Era(89, 1145, 8, 12),
    Era(90, 1151, 2, 14),
    Era(91, 1154, 12, 4),
    Era(92, 1156, 5, 18),
    Era(93, 1159, 5, 9),
    Era(94, 1160, 2, 18),
    Era(95, 1161, 9, 24),
    Era(96, 1163, 5, 4),
    Era(97, 1165, 7, 14),
    Era(98, 1166, 9, 23),
    Era(99, 1169, 5, 6)
  ]

  lemma Early4From()
    ensures StartsFrom(Early4, StartTime(TAIKA))
  {
  }

  lemma Early4By()
    ensures StartsBy(Early4, StartTime(KOWA))
  {
  }

  lemma Early4Numbered()
    ensures Numbered(Early4, 80)
  {
  }

  lemma Early4Dated()
    ensures AllDated(Early4)
  {
  }

  /** Lines 892-949: SHOAN_1171 .. ANTEI. */
  const Early5: seq<Era> := [
    Era(100, 1171, 5, 27),
    Era(101, 1175, 8, 16),
    Era(102, 1177, 8, 29),
    Era(103, 1181, 8, 25),
    Era(104, 1182, 6, 29),
    Era(105, 1184, 5, 27),
    Era(106, 1185, 9, 9),
    Era(107, 1190, 5, 16),
    Era(108, 1199, 5, 23),
    Era(109, 1201, 3, 19),
    Era(110, 1204, 3, 23),
    Era(111, 1206, 6, 5),
    Era(112, 1207, 11, 16),
    Era(113, 1211, 4, 23),
    Era(114, 1214, 1, 18),
    Era(115, 1219, 5, 27),
    Era(116, 1222, 5, 25),
    Era(117, 1224, 12, 31),
    Era(118, 1225, 5, 28),
    Era(119, 1228, 1, 18)
  ]

  lemma Early5From()
    ensures StartsFrom(Early5, StartTime(TAIKA))
  {
  }

  lemma Early5By()
    ensures StartsBy(Early5, StartTime(KOWA))
  {
  }

  lemma Early5Numbered()
    ensures Numbered(Early5, 100)
  {
  }

  lemma Early5Dated()
    ensures AllDated(Early5)
  {
  }

  /** Lines 952-1009: KANKI .. SHOO. */
  const Early6: seq<Era> := [
    Era(120, 1229, 3, 31),
    Era(121, 1232, 4, 23),
    Era(122, 1233, 5, 25),
    Era(123, 1234, 11, 27),
    Era(124, 1235, 11, 1),
    Era(125, 1238, 12, 30),
    Era(126, 1239, 3, 13),
    Era(127, 1240, 8, 5),
    Era(128, 1243, 3, 18),
    Era(129, 1247, 4, 5),
    Era(130, 1249, 5, 2),
    Era(131, 1256, 10, 24),
    Era(132, 1257, 3, 31),
    Era(133, 1259, 4, 20),
    Era(134, 1260, 5, 24),
    Era(135, 1261, 3, 22),
    Era(136, 1264, 3, 27),
    Era(137, 1275, 5, 22),
    Era(138, 1278, 3, 23),
    Era(139, 1288, 5, 29)
  ]

  lemma Early6From()
    ensures StartsFrom(Early6, StartTime(TAIKA))
  {
  }

  lemma Early6By()
    ensures StartsBy(Early6, StartTime(KOWA))
  {
  }

  lemma Early6Numbered()
    ensures Numbered(Early6, 120)
  {
  }

  lemma Early6Dated()
    ensures AllDated(Early6)
  {
  }

  /** Lines 1012-1069: EININ .. SHOHEI. */
  const Early7: seq<Era> := [
    Era(140, 1293, 9, 6),
    Era(141, 1299, 5, 25),
    Era(142, 1302, 12, 10),
    Era(143, 1303, 9, 16),
    Era(144, 1307, 1, 18),
    Era(145, 1308, 11, 22),
    Era(146, 1311, 5, 17),
    Era(147, 1312, 4, 27),
    Era(148, 1317, 3, 16),
    Era(149, 1319, 5, 18),
    Era(150, 1321, 3, 22),
    Era(151, 1324, 12, 25),
    Era(152, 1326, 5, 28),
    Era(153, 1329, 9, 22),
    Era(154, 1331, 9, 11),
    Era(155, 1332, 5, 23),
    Era(156, 1334, 3, 5),
    Era(157, 1336, 4, 11),
    Era(158, 1340, 5, 25),
    Era(159, 1347, 1, 20)
  ]

  lemma Early7From()
    ensures StartsFrom(Early7, StartTime(TAIKA))
  {
  }

  lemma Early7By()
    ensures StartsBy(Early7, StartTime(KOWA))
  {
  }

  lemma Early7Numbered()
    ensures Numbered(Early7, 140)
  {
  }

  lemma Early7Dated()
    ensures AllDated(Early7)
  {
  }

  /** Lines 1072-1081: KENTOKU .. KOWA. */
  const Early8: seq<Era> := [
    Era(160, 1370, 8, 16),
    Era(161, 1372, 5, 1),
    Era(162, 1375, 6, 26),
    Era(163, 1381, 3, 6)
  ]

  lemma Early8From()
    ensures StartsFrom(Early8, StartTime(TAIKA))
  {
  }

  lemma Early8By()
    ensures StartsBy(Early8, StartTime(KOWA))
  {
  }

  lemma Early8Numbered()
    ensures Numbered(Early8, 160)
  {
  }

  lemma Early8Dated()
    ensures AllDated(Early8)
  {
  }

  /** Lines 1087-1123: RYAKUO .. SHITOKU. */
  const Late0: seq<Era> := [
    Era(165, 1338, 10, 11),
    Era(166, 1342, 6, 1),
    Era(167, 1345, 11, 15),
    Era(168, 1350, 4, 4),
    Era(169, 1352, 11, 4),
    Era(170, 1356, 4, 29),
    Era(171, 1361, 5, 4),
    Era(172, 1362, 10, 11),
    Era(173, 1368, 3, 7),
    Era(174, 1375, 3, 29),
    Era(175, 1379, 4, 9),
    Era(176, 1381, 3, 20),
    Era(177, 1384, 3, 19)
  ]

  lemma Late0From()
    ensures StartsFrom(Late0, StartTime(RYAKUO))
  {
  }

  lemma Late0By()
    ensures StartsBy(Late0, StartTime(SHITOKU))
  {
  }

  lemma Late0Numbered()
    ensures Numbered(Late0, 165)
  {
  }

  lemma Late0Dated()
    ensures AllDated(Late0)
  {
  }

  /** Lines 1126-1183: KAKYO .. BUNKI. */
  const Late1: seq<Era> := [
    Era(178, 1387, 10, 5),
    Era(179, 1389, 3, 7),
    Era(180, 1390, 4, 12),
    Era(181, 1394, 8, 2),
    Era(182, 1428, 6, 10),
    Era(183, 1429, 10, 3),
    Era(184, 1441, 3, 10),
    Era(185, 1444, 2, 23),
    Era(186, 1449, 8, 16),
    Era(187, 1452, 8, 10),
    Era(188, 1455, 9, 6),
    Era(189, 1457, 10, 16),
    Era(190, 1461, 2, 1),
    Era(191, 1466, 3, 14),
    Era(192, 1467, 4, 9),
    Era(193, 1469, 6, 8),
    Era(194, 1487, 8, 9),
    Era(195, 1489, 9, 16),
    Era(196, 1492, 8, 12),
    Era(197, 1501, 3, 18)
  ]

  lemma Late1From()
    ensures StartsFrom(Late1, StartTime(KAKYO))
  {
  }

  lemma Late1By()
    ensures StartsBy(Late1, StartTime(TAISHO))
  {
  }

  lemma Late1Numbered()
    ensures Numbered(Late1, 178)
  {
  }

  lemma Late1Dated()
    ensures AllDated(Late1)
  {
  }

  /** Lines 1186-1243: EISHO .. TENNA. */
  const Late2: seq<Era> := [
    Era(198, 1504, 3, 16),
    Era(199, 1521, 9, 23),
    Era(200, 1528, 9, 3),
    Era(201, 1532, 8, 29),
    Era(202, 1555, 11, 7),
    Era(203, 1558, 3, 18),
    Era(204, 1570, 5, 27),
    Era(205, 1573, 8, 25),
    Era(206, 1593, 1, 10),
    Era(207, 1596, 12, 16),
    Era(208, 1615, 9, 5),
    Era(209, 1624, 4, 17),
    Era(210, 1645, 1, 13),
    Era(211, 1648, 4, 7),
    Era(212, 1652, 10, 20),
    Era(213, 1655, 5, 18),
    Era(214, 1658, 8, 21),
    Era(215, 1661, 5, 23),
    Era(216, 1673, 10, 30),
    Era(217, 1681, 11, 9)
  ]

  lemma Late2From()
    ensures StartsFrom(Late2, StartTime(KAKYO))
  {
  }

  lemma Late2By()
    ensures StartsBy(Late2, StartTime(TAISHO))
  {
  }

  lemma Late2Numbered()
    ensures Numbered(Late2, 198)
  {
  }

  lemma Late2Dated()
    ensures AllDated(Late2)
  {
  }

  /** Lines 1246-1303: JOKYO .. KAEI. */
  const Late3: seq<Era> := [
    Era(218, 1684, 4, 5),
    Era(219, 1688, 10, 23),
    Era(220, 1704, 4, 16),
    Era(221, 1711, 6, 11),
    Era(222, 1716, 8, 9),
    Era(223, 1736, 6, 7),
    Era(224, 1741, 4, 12),
    Era(225, 1744, 4, 3),
    Era(226, 1748, 8, 5),
    Era(227, 1751, 12, 14),
    Era(228, 1764, 6, 30),
    Era(229, 1772, 12, 10),
    Era(230, 1781, 4, 25),
    Era(231, 1789, 2, 19),
    Era(232, 1801, 3, 19),
    Era(233, 1804, 3, 22),
    Era(234, 1818, 5, 26),
    Era(235, 1831, 1, 23),
    Era(236, 1845, 1, 9),
    Era(237, 1848, 4, 1)
  ]

  lemma Late3From()
    ensures StartsFrom(Late3, StartTime(KAKYO))
  {
  }

  lemma Late3By()
    ensures StartsBy(Late3, StartTime(TAISHO))
  {
  }

  lemma Late3Numbered()
    ensures Numbered(Late3, 218)
  {
  }

  lemma Late3Dated()
    ensures AllDated(Late3)
  {
  }

  /** Lines 1306-1324: ANSEI .. TAISHO. */
  const Late4: seq<Era> := [
    Era(238, 1855, 1, 15),
    Era(239, 1860, 4, 8),
    Era(240, 1861, 3, 29),
    Era(241, 1864, 3, 27),
    Era(242, 1865, 5, 1),
    Era(243, 1868, 1, 25),
    Era(244, 1912, 7, 30)
  ]

  lemma Late4From()
    ensures StartsFrom(Late4, StartTime(KAKYO))
  {
  }

  lemma Late4By()
    ensures StartsBy(Late4, StartTime(TAISHO))
  {
  }

  lemma Late4Numbered()
    ensures Numbered(Late4, 238)
  {
  }

  lemma Late4Dated()
    ensures AllDated(Late4)
  {
  }

  /** Lines 592-1081: TAIKA .. KOWA. */
  const TAIKA_TO_KOWA: seq<Era> := Early0 + (Early1 + (Early2 + (Early3 + (Early4 + (Early5 + (Early6 + (Early7 + Early8)))))))

  /** Lines 1087-1123: RYAKUO .. SHITOKU. */
  const RYAKUO_TO_SHITOKU: seq<Era> := Late0

  /** Lines 1126-1324: KAKYO .. TAISHO. */
  const KAKYO_TO_TAISHO: seq<Era> := Late1 + (Late2 + (Late3 + Late4))

  /** `JapaneseYearType.values()`: lines 592-1330. */
  const CATALOG: seq<Era> := TAIKA_TO_KOWA + [GENCHU] + RYAKUO_TO_SHITOKU + KAKYO_TO_TAISHO + [SHOWA] + [HEISEI]

  lemma TaikaToKowaNumberedFrom7()
    ensures Numbered(Early7 + Early8, 140)
  {
    Early7Numbered();
    Early8Numbered();
    NumberedAppend(Early7, Early8, 140);
  }

  lemma TaikaToKowaNumberedFrom6()
    ensures Numbered(Early6 + (Early7 + Early8), 120)
  {
    Early6Numbered();
    TaikaToKowaNumberedFrom7();
    NumberedAppend(Early6, Early7 + Early8, 120);
  }

  lemma TaikaToKowaNumberedFrom5()
    ensures Numbered(Early5 + (Early6 + (Early7 + Early8)), 100)
  {
    Early5Numbered();
    TaikaToKowaNumberedFrom6();
    NumberedAppend(Early5, Early6 + (Early7 + Early8), 100);
  }

  lemma TaikaToKowaNumberedFrom4()
    ensures Numbered(Early4 + (Early5 + (Early6 + (Early7 + Early8))), 80)
  {
    Early4Numbered();
    TaikaToKowaNumberedFrom5();
    NumberedAppend(Early4, Early5 + (Early6 + (Early7 + Early8)), 80);
  }

  lemma TaikaToKowaNumberedFrom3()
    ensures Numbered(Early3 + (Early4 + (Early5 + (Early6 + (Early7 + Early8)))), 60)
  {
    Early3Numbered();
    TaikaToKowaNumberedFrom4();
    NumberedAppend(Early3, Early4 + (Early5 + (Early6 + (Early7 + Early8))), 60);
  }

  lemma TaikaToKowaNumberedFrom2()
    ensures Numbered(Early2 + (Early3 + (Early4 + (Early5 + (Early6 + (Early7 + Early8))))), 40)
  {
    Early2Numbered();
    TaikaToKowaNumberedFrom3();
    NumberedAppend(Early2, Early3 + (Early4 + (Early5 + (Early6 + (Early7 + Early8)))), 40);
  }

  lemma TaikaToKowaNumberedFrom1()
    ensures Numbered(Early1 + (Early2 + (Early3 + (Early4 + (Early5 + (Early6 + (Early7 + Early8)))))), 20)
  {
    Early1Numbered();
    TaikaToKowaNumberedFrom2();
    NumberedAppend(Early1, Early2 + (Early3 + (Early4 + (Early5 + (Early6 + (Early7 + Early8))))), 20);
  }

  lemma TaikaToKowaNumberedFrom0()
    ensures Numbered(Early0 + (Early1 + (Early2 + (Early3 + (Early4 + (Early5 + (Early6 + (Early7 + Early8))))))), 0)
  {
    Early0Numbered();
    TaikaToKowaNumberedFrom1();
    NumberedAppend(Early0, Early1 + (Early2 + (Early3 + (Early4 + (Early5 + (Early6 + (Early7 + Early8)))))), 0);
  }


  lemma TaikaToKowaFromFrom7()
    ensures StartsFrom(Early7 + Early8, StartTime(TAIKA))
  {
    Early7From();
    Early8From();
    StartsFromAppend(Early7, Early8, StartTime(TAIKA));
  }

  lemma TaikaToKowaFromFrom6()
    ensures StartsFrom(Early6 + (Early7 + Early8), StartTime(TAIKA))
  {
    Early6From();
    TaikaToKowaFromFrom7();
    StartsFromAppend(Early6, Early7 + Early8, StartTime(TAIKA));
  }

  lemma TaikaToKowaFromFrom5()
    ensures StartsFrom(Early5 + (Early6 + (Early7 + Early8)), StartTime(TAIKA))
  {
    Early5From();
    TaikaToKowaFromFrom6();
    StartsFromAppend(Early5, Early6 + (Early7 + Early8), StartTime(TAIKA));
  }

  lemma TaikaToKowaFromFrom4()
    ensures StartsFrom(Early4 + (Early5 + (Early6 + (Early7 + Early8))), StartTime(TAIKA))
  {
    Early4From();
    TaikaToKowaFromFrom5();
    StartsFromAppend(Early4, Early5 + (Early6 + (Early7 + Early8)), StartTime(TAIKA));
  }

  lemma TaikaToKowaFromFrom3()
    ensures StartsFrom(Early3 + (Early4 + (Early5 + (Early6 + (Early7 + Early8)))), StartTime(TAIKA))
  {
    Early3From();
    TaikaToKowaFromFrom4();
    StartsFromAppend(Early3, Early4 + (Early5 + (Early6 + (Early7 + Early8))), StartTime(TAIKA));
  }

  lemma TaikaToKowaFromFrom2()
    ensures StartsFrom(Early2 + (Early3 + (Early4 + (Early5 + (Early6 + (Early7 + Early8))))), StartTime(TAIKA))
  {
    Early2From();
    TaikaToKowaFromFrom3();
    StartsFromAppend(Early2, Early3 + (Early4 + (Early5 + (Early6 + (Early7 + Early8)))), StartTime(TAIKA));
  }

  lemma TaikaToKowaFromFrom1()
    ensures StartsFrom(Early1 + (Early2 + (Early3 + (Early4 + (Early5 + (Early6 + (Early7 + Early8)))))), StartTime(TAIKA))
  {
    Early1From();
    TaikaToKowaFromFrom2();
    StartsFromAppend(Early1, Early2 + (Early3 + (Early4 + (Early5 + (Early6 + (Early7 + Early8))))), StartTime(TAIKA));
  }

  lemma TaikaToKowaFromFrom0()
    ensures StartsFrom(Early0 + (Early1 + (Early2 + (Early3 + (Early4 + (Early5 + (Early6 + (Early7 + Early8))))))), StartTime(TAIKA))
  {
    Early0From();
    TaikaToKowaFromFrom1();
    StartsFromAppend(Early0, Early1 + (Early2 + (Early3 + (Early4 + (Early5 + (Early6 + (Early7 + Early8)))))), StartTime(TAIKA));
  }


  lemma TaikaToKowaByFrom7()
    ensures StartsBy(Early7 + Early8, StartTime(KOWA))
  {
    Early7By();
    Early8By();
    StartsByAppend(Early7, Early8, StartTime(KOWA));
  }

  lemma TaikaToKowaByFrom6()
    ensures StartsBy(Early6 + (Early7 + Early8), StartTime(KOWA))
  {
    Early6By();
    TaikaToKowaByFrom7();
    StartsByAppend(Early6, Early7 + Early8, StartTime(KOWA));
  }

  lemma TaikaToKowaByFrom5()
    ensures StartsBy(Early5 + (Early6 + (Early7 + Early8)), StartTime(KOWA))
  {
    Early5By();
    TaikaToKowaByFrom6();
    StartsByAppend(Early5, Early6 + (Early7 + Early8), StartTime(KOWA));
  }

  lemma TaikaToKowaByFrom4()
    ensures StartsBy(Early4 + (Early5 + (Early6 + (Early7 + Early8))), StartTime(KOWA))
  {
    Early4By();
    TaikaToKowaByFrom5();
    StartsByAppend(Early4, Early5 + (Early6 + (Early7 + Early8)), StartTime(KOWA));
  }

  lemma TaikaToKowaByFrom3()
    ensures StartsBy(Early3 + (Early4 + (Early5 + (Early6 + (Early7 + Early8)))), StartTime(KOWA))
  {
    Early3By();
    TaikaToKowaByFrom4();
    StartsByAppend(Early3, Early4 + (Early5 + (Early6 + (Early7 + Early8))), StartTime(KOWA));
  }

  lemma TaikaToKowaByFrom2()
    ensures StartsBy(Early2 + (Early3 + (Early4 + (Early5 + (Early6 + (Early7 + Early8))))), StartTime(KOWA))
  {
    Early2By();
    TaikaToKowaByFrom3();
    StartsByAppend(Early2, Early3 + (Early4 + (Early5 + (Early6 + (Early7 + Early8)))), StartTime(KOWA));
  }

  lemma TaikaToKowaByFrom1()
    ensures StartsBy(Early1 + (Early2 + (Early3 + (Early4 + (Early5 + (Early6 + (Early7 + Early8)))))), StartTime(KOWA))
  {
    Early1By();
    TaikaToKowaByFrom2();
    StartsByAppend(Early1, Early2 + (Early3 + (Early4 + (Early5 + (Early6 + (Early7 + Early8))))), StartTime(KOWA));
  }

  lemma TaikaToKowaByFrom0()
    ensures StartsBy(Early0 + (Early1 + (Early2 + (Early3 + (Early4 + (Early5 + (Early6 + (Early7 + Early8))))))), StartTime(KOWA))
  {
    Early0By();
    TaikaToKowaByFrom1();
    StartsByAppend(Early0, Early1 + (Early2 + (Early3 + (Early4 + (Early5 + (Early6 + (Early7 + Early8)))))), StartTime(KOWA));
  }


  lemma TaikaToKowaDatedFrom7()
    ensures AllDated(Early7 + Early8)
  {
    Early7Dated();
    Early8Dated();
    AllDatedAppend(Early7, Early8);
  }

  lemma TaikaToKowaDatedFrom6()
    ensures AllDated(Early6 + (Early7 + Early8))
  {
    Early6Dated();
    TaikaToKowaDatedFrom7();
    AllDatedAppend(Early6, Early7 + Early8);
  }

  lemma TaikaToKowaDatedFrom5()
    ensures AllDated(Early5 + (Early6 + (Early7 + Early8)))
  {
    Early5Dated();
    TaikaToKowaDatedFrom6();
    AllDatedAppend(Early5, Early6 + (Early7 + Early8));
  }

  lemma TaikaToKowaDatedFrom4()
    ensures AllDated(Early4 + (Early5 + (Early6 + (Early7 + Early8))))
  {
    Early4Dated();
    TaikaToKowaDatedFrom5();
    AllDatedAppend(Early4, Early5 + (Early6 + (Early7 + Early8)));
  }

  lemma TaikaToKowaDatedFrom3()
    ensures AllDated(Early3 + (Early4 + (Early5 + (Early6 + (Early7 + Early8)))))
  {
    Early3Dated();
    TaikaToKowaDatedFrom4();
    AllDatedAppend(Early3, Early4 + (Early5 + (Early6 + (Early7 + Early8))));
  }

  lemma TaikaToKowaDatedFrom2()
    ensures AllDated(Early2 + (Early3 + (Early4 + (Early5 + (Early6 + (Early7 + Early8))))))
  {
    Early2Dated();
    TaikaToKowaDatedFrom3();
    AllDatedAppend(Early2, Early3 + (Early4 + (Early5 + (Early6 + (Early7 + Early8)))));
  }

  lemma TaikaToKowaDatedFrom1()
    ensures AllDated(Early1 + (Early2 + (Early3 + (Early4 + (Early5 + (Early6 + (Early7 + Early8)))))))
  {
    Early1Dated();
    TaikaToKowaDatedFrom2();
    AllDatedAppend(Early1, Early2 + (Early3 + (Early4 + (Early5 + (Early6 + (Early7 + Early8))))));
  }

  lemma TaikaToKowaDatedFrom0()
    ensures AllDated(Early0 + (Early1 + (Early2 + (Early3 + (Early4 + (Early5 + (Early6 + (Early7 + Early8))))))))
  {
    Early0Dated();
    TaikaToKowaDatedFrom1();
    AllDatedAppend(Early0, Early1 + (Early2 + (Early3 + (Early4 + (Early5 + (Early6 + (Early7 + Early8)))))));
  }


  lemma KakyoToTaishoNumberedFrom2()
    ensures Numbered(Late3 + Late4, 218)
  {
    Late3Numbered();
    Late4Numbered();
    NumberedAppend(Late3, Late4, 218);
  }

  lemma KakyoToTaishoNumberedFrom1()
    ensures Numbered(Late2 + (Late3 + Late4), 198)
  {
    Late2Numbered();
    KakyoToTaishoNumberedFrom2();
    NumberedAppend(Late2, Late3 + Late4, 198);
  }

  lemma KakyoToTaishoNumberedFrom0()
    ensures Numbered(Late1 + (Late2 + (Late3 + Late4)), 178)
  {
    Late1Numbered();
    KakyoToTaishoNumberedFrom1();
    NumberedAppend(Late1, Late2 + (Late3 + Late4), 178);
  }


  lemma KakyoToTaishoFromFrom2()
    ensures StartsFrom(Late3 + Late4, StartTime(KAKYO))
  {
    Late3From();
    Late4From();
    StartsFromAppend(Late3, Late4, StartTime(KAKYO));
  }

  lemma KakyoToTaishoFromFrom1()
    ensures StartsFrom(Late2 + (Late3 + Late4), StartTime(KAKYO))
  {
    Late2From();
    KakyoToTaishoFromFrom2();
    StartsFromAppend(Late2, Late3 + Late4, StartTime(KAKYO));
  }

  lemma KakyoToTaishoFromFrom0()
    ensures StartsFrom(Late1 + (Late2 + (Late3 + Late4)), StartTime(KAKYO))
  {
    Late1From();
    KakyoToTaishoFromFrom1();
    StartsFromAppend(Late1, Late2 + (Late3 + Late4), StartTime(KAKYO));
  }


  lemma KakyoToTaishoByFrom2()
    ensures StartsBy(Late3 + Late4, StartTime(TAISHO))
  {
    Late3By();
    Late4By();
    StartsByAppend(Late3, Late4, StartTime(TAISHO));
  }

  lemma KakyoToTaishoByFrom1()
    ensures StartsBy(Late2 + (Late3 + Late4), StartTime(TAISHO))
  {
    Late2By();
    KakyoToTaishoByFrom2();
    StartsByAppend(Late2, Late3 + Late4, StartTime(TAISHO));
  }

  lemma KakyoToTaishoByFrom0()
    ensures StartsBy(Late1 + (Late2 + (Late3 + Late4)), StartTime(TAISHO))
  {
    Late1By();
    KakyoToTaishoByFrom1();
    StartsByAppend(Late1, Late2 + (Late3 + Late4), StartTime(TAISHO));
  }


  lemma KakyoToTaishoDatedFrom2()
    ensures AllDated(Late3 + Late4)
  {
    Late3Dated();
    Late4Dated();
    AllDatedAppend(Late3, Late4);
  }

  lemma KakyoToTaishoDatedFrom1()
    ensures AllDated(Late2 + (Late3 + Late4))
  {
    Late2Dated();
    KakyoToTaishoDatedFrom2();
    AllDatedAppend(Late2, Late3 + Late4);
  }

  lemma KakyoToTaishoDatedFrom0()
    ensures AllDated(Late1 + (Late2 + (Late3 + Late4)))
  {
    Late1Dated();
    KakyoToTaishoDatedFrom1();
    AllDatedAppend(Late1, Late2 + (Late3 + Late4));
  }


  // ----- The whole table -----

  /** 247 entries, each numbered by its position. */
  lemma CatalogNumbered()
    ensures |CATALOG| == 247 && Numbered(CATALOG, 0)
  {
    TaikaToKowaNumberedFrom0();
    Late0Numbered();
    KakyoToTaishoNumberedFrom0();
    var x0 := TAIKA_TO_KOWA + [GENCHU];
    NumberedAppend(TAIKA_TO_KOWA, [GENCHU], 0);
    NumberedAppend(x0, RYAKUO_TO_SHITOKU, 0);
    NumberedAppend(x0 + RYAKUO_TO_SHITOKU, KAKYO_TO_TAISHO, 0);
    NumberedAppend(x0 + RYAKUO_TO_SHITOKU + KAKYO_TO_TAISHO, [SHOWA], 0);
    NumberedAppend(x0 + RYAKUO_TO_SHITOKU + KAKYO_TO_TAISHO + [SHOWA], [HEISEI], 0);
  }

  /** Every entry starts on a calendar day of the common era. */
  lemma CatalogDated()
    ensures AllDated(CATALOG)
  {
    TaikaToKowaDatedFrom0();
    Late0Dated();
    KakyoToTaishoDatedFrom0();
    var x0 := TAIKA_TO_KOWA + [GENCHU];
    AllDatedAppend(TAIKA_TO_KOWA, [GENCHU]);
    AllDatedAppend(x0, RYAKUO_TO_SHITOKU);
    AllDatedAppend(x0 + RYAKUO_TO_SHITOKU, KAKYO_TO_TAISHO);
    AllDatedAppend(x0 + RYAKUO_TO_SHITOKU + KAKYO_TO_TAISHO, [SHOWA]);
    AllDatedAppend(x0 + RYAKUO_TO_SHITOKU + KAKYO_TO_TAISHO + [SHOWA], [HEISEI]);
  }

  /** The table is not chronological: RYAKUO, declared right after GENCHU, starts 46 years earlier. */
  lemma CatalogNotChronological()
    ensures CATALOG[164] == GENCHU && CATALOG[165] == RYAKUO
    ensures StartTime(CATALOG[165]) < StartTime(CATALOG[164])
  {
    assert |TAIKA_TO_KOWA| == 164;
  }

  /** No entry starts before TAIKA. */
  lemma CatalogFrom()
    ensures StartsFrom(CATALOG, StartTime(TAIKA))
  {
    TaikaToKowaFromFrom0();
    Late0From();
    KakyoToTaishoFromFrom0();
    var x0 := TAIKA_TO_KOWA + [GENCHU];
    StartsFromAppend(TAIKA_TO_KOWA, [GENCHU], StartTime(TAIKA));
    StartsFromAppend(x0, RYAKUO_TO_SHITOKU, StartTime(TAIKA));
    StartsFromAppend(x0 + RYAKUO_TO_SHITOKU, KAKYO_TO_TAISHO, StartTime(TAIKA));
    StartsFromAppend(x0 + RYAKUO_TO_SHITOKU + KAKYO_TO_TAISHO, [SHOWA], StartTime(TAIKA));
    StartsFromAppend(x0 + RYAKUO_TO_SHITOKU + KAKYO_TO_TAISHO + [SHOWA], [HEISEI], StartTime(TAIKA));
  }

  // ----- What `match` returns over the table -----

  /** No era before TAIKA (645/7/17): `match` returns null. */
  lemma NoEraBeforeTaika(time: int)
    requires time < StartTime(TAIKA)
    ensures Latest(CATALOG, time) == None
  {
    CatalogFrom();
    LatestBeforeAll(CATALOG, time, StartTime(TAIKA));
  }

  /** `match` finds an era exactly for the instants from TAIKA's start on. */
  lemma MatchedFromTaika(time: int)
    ensures Latest(CATALOG, time).None? <==> time < StartTime(TAIKA)
  {
    if time < StartTime(TAIKA) {
      NoEraBeforeTaika(time);
    } else {
      assert CATALOG[0] == TAIKA;
      LatestIsMatch(CATALOG, time);
    }
  }

  lemma GenchuThenShitoku(time: int)
    requires StartTime(GENCHU) <= time
    ensures Latest(TAIKA_TO_KOWA + [GENCHU] + RYAKUO_TO_SHITOKU, time) == Some(GENCHU)
  {
    TaikaToKowaByFrom0();
    Late0By();
    LatestOfLast(TAIKA_TO_KOWA, GENCHU, time, StartTime(KOWA));
    LatestKeepsEarlier(TAIKA_TO_KOWA + [GENCHU], RYAKUO_TO_SHITOKU, time, GENCHU, StartTime(SHITOKU));
  }

  /**
   * From GENCHU (1384/5/18) to KAKYO (1387/10/5) the match is GENCHU,
   * although SHITOKU, declared after it, has also started by then: the
   * sort puts the later start first.
   */
  lemma GenchuOverShitoku(time: int)
    requires StartTime(GENCHU) <= time < StartTime(KAKYO)
    ensures StartTime(SHITOKU) <= time
    ensures Latest(CATALOG, time) == Some(GENCHU)
  {
    var x1 := TAIKA_TO_KOWA + [GENCHU] + RYAKUO_TO_SHITOKU;
    GenchuThenShitoku(time);
    KakyoToTaishoFromFrom0();
    LatestKeepsLater(x1, KAKYO_TO_TAISHO, time, GENCHU, StartTime(KAKYO));
    LatestKeepsLater(x1 + KAKYO_TO_TAISHO, [SHOWA], time, GENCHU, StartTime(SHOWA));
    LatestKeepsLater(x1 + KAKYO_TO_TAISHO + [SHOWA], [HEISEI], time, GENCHU, StartTime(HEISEI));
  }

  /** Up to TAISHO, nothing starts after TAISHO. */
  lemma UpToTaishoBy()
    ensures StartsBy(TAIKA_TO_KOWA + [GENCHU] + RYAKUO_TO_SHITOKU + KAKYO_TO_TAISHO, StartTime(TAISHO))
  {
    var x0 := TAIKA_TO_KOWA + [GENCHU];
    TaikaToKowaByFrom0();
    StartsByWiden(TAIKA_TO_KOWA, StartTime(KOWA), StartTime(TAISHO));
    StartsByAppend(TAIKA_TO_KOWA, [GENCHU], StartTime(TAISHO));
    Late0By();
    StartsByWiden(RYAKUO_TO_SHITOKU, StartTime(SHITOKU), StartTime(TAISHO));
    StartsByAppend(x0, RYAKUO_TO_SHITOKU, StartTime(TAISHO));
    KakyoToTaishoByFrom0();
    StartsByAppend(x0 + RYAKUO_TO_SHITOKU, KAKYO_TO_TAISHO, StartTime(TAISHO));
  }

  /** From SHOWA (1926/12/25) until HEISEI (1989/1/8) the match is SHOWA. */
  lemma ShowaReign(time: int)
    requires StartTime(SHOWA) <= time < StartTime(HEISEI)
    ensures Latest(CATALOG, time) == Some(SHOWA)
  {
    var x2 := TAIKA_TO_KOWA + [GENCHU] + RYAKUO_TO_SHITOKU + KAKYO_TO_TAISHO;
    UpToTaishoBy();
    LatestOfLast(x2, SHOWA, time, StartTime(TAISHO));
    LatestKeepsLater(x2 + [SHOWA], [HEISEI], time, SHOWA, StartTime(HEISEI));
  }

  /** From HEISEI (1989/1/8) on the match is HEISEI, the last entry. */
  lemma HeiseiOnward(time: int)
    requires StartTime(HEISEI) <= time
    ensures Latest(CATALOG, time) == Some(HEISEI)
  {
    var x2 := TAIKA_TO_KOWA + [GENCHU] + RYAKUO_TO_SHITOKU + KAKYO_TO_TAISHO;
    UpToTaishoBy();
    StartsByWiden(x2, StartTime(TAISHO), StartTime(SHOWA));
    StartsByAppend(x2, [SHOWA], StartTime(SHOWA));
    LatestOfLast(x2 + [SHOWA], HEISEI, time, StartTime(SHOWA));
  }

  /** The era `match` finds for a date starts in the common era, no later than the date's year. */
  lemma MatchedStartYear(d: Date)
    ensures Latest(CATALOG, Time(d)).Some? ==> 1 <= Latest(CATALOG, Time(d)).value.startYear <= d.year
  {
    if Latest(CATALOG, Time(d)).Some? {
      var e := Latest(CATALOG, Time(d)).value;
      CatalogDated();
      var k :| 0 <= k < |CATALOG| && CATALOG[k] == e;
      assert Dated(e);
      TimeOrder(d, e.StartDate());
    }
  }
}

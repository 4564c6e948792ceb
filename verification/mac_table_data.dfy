/** The antenna-port and precoding tables of TS 38.212 section 7.3.1
    that the UE MAC reads when it fills DLSCH and PUSCH PDUs, entry for
    entry as the MAC holds them. Long tables are split into parts of a
    few rows each. */
module MacTableData {
  import opened Common

  /** TS 38.212 Tables 7.3.1.1.2-2 to -5 side by side: (layers, TPMI) column pairs 0-5 for 4 ports with maxRank 2 to 4, 6-11 for 4 ports with maxRank 1, 12-15 for 2 ports with maxRank 2, 16-19 for 2 ports with maxRank 1. A layer count of 0 marks a reserved entry. */
  function PrecodingTable(i: nat): (row: seq<nat>)
    requires i < 64
    ensures |row| == 20
    ensures row[0] <= 4 && row[2] <= 4 && row[4] <= 4
    ensures row[6] <= 1 && row[8] <= 1 && row[10] <= 1
    ensures row[12] <= 2 && row[14] <= 2
    ensures row[16] <= 1 && row[18] <= 1
  {
    if i < 2 then PrecodingTablePart0(i)
    else if i < 4 then PrecodingTablePart1(i - 2)
    else if i < 6 then PrecodingTablePart2(i - 4)
    else if i < 8 then PrecodingTablePart3(i - 6)
    else if i < 10 then PrecodingTablePart4(i - 8)
    else if i < 12 then PrecodingTablePart5(i - 10)
    else if i < 14 then PrecodingTablePart6(i - 12)
    else if i < 16 then PrecodingTablePart7(i - 14)
    else if i < 18 then PrecodingTablePart8(i - 16)
    else if i < 20 then PrecodingTablePart9(i - 18)
    else if i < 22 then PrecodingTablePart10(i - 20)
    else if i < 24 then PrecodingTablePart11(i - 22)
    else if i < 26 then PrecodingTablePart12(i - 24)
    else if i < 28 then PrecodingTablePart13(i - 26)
    else if i < 30 then PrecodingTablePart14(i - 28)
    else if i < 32 then PrecodingTablePart15(i - 30)
    else if i < 34 then PrecodingTablePart16(i - 32)
    else if i < 36 then PrecodingTablePart17(i - 34)
    else if i < 38 then PrecodingTablePart18(i - 36)
    else if i < 40 then PrecodingTablePart19(i - 38)
    else if i < 42 then PrecodingTablePart20(i - 40)
    else if i < 44 then PrecodingTablePart21(i - 42)
    else if i < 46 then PrecodingTablePart22(i - 44)
    else if i < 48 then PrecodingTablePart23(i - 46)
    else if i < 50 then PrecodingTablePart24(i - 48)
    else if i < 52 then PrecodingTablePart25(i - 50)
    else if i < 54 then PrecodingTablePart26(i - 52)
    else if i < 56 then PrecodingTablePart27(i - 54)
    else if i < 58 then PrecodingTablePart28(i - 56)
    else if i < 60 then PrecodingTablePart29(i - 58)
    else if i < 62 then PrecodingTablePart30(i - 60)
    else PrecodingTablePart31(i - 62)
  }

  function PrecodingTablePart0(i: nat): (row: seq<nat>)
    requires i < 2
    ensures |row| == 20
    ensures row[0] <= 4 && row[2] <= 4 && row[4] <= 4
    ensures row[6] <= 1 && row[8] <= 1 && row[10] <= 1
    ensures row[12] <= 2 && row[14] <= 2
    ensures row[16] <= 1 && row[18] <= 1
  {
    match i
    case 0 => [1, 0, 1, 0, 1, 0, 1, 0, 1, 0, 1, 0, 1, 0, 1, 0, 1, 0, 1, 0]
    case _ => [1, 1, 1, 1, 1, 1, 1, 1, 1, 1, 1, 1, 1, 1, 1, 1, 1, 1, 1, 1]
  }

  function PrecodingTablePart1(i: nat): (row: seq<nat>)
    requires i < 2
    ensures |row| == 20
    ensures row[0] <= 4 && row[2] <= 4 && row[4] <= 4
    ensures row[6] <= 1 && row[8] <= 1 && row[10] <= 1
    ensures row[12] <= 2 && row[14] <= 2
    ensures row[16] <= 1 && row[18] <= 1
  {
    match i
    case 0 => [1, 2, 1, 2, 1, 2, 1, 2, 1, 2, 1, 2, 2, 0, 2, 0, 1, 2, 0, 0]
    case _ => [1, 3, 1, 3, 1, 3, 1, 3, 1, 3, 1, 3, 1, 2, 0, 0, 1, 3, 0, 0]
  }

  function PrecodingTablePart2(i: nat): (row: seq<nat>)
    requires i < 2
    ensures |row| == 20
    ensures row[0] <= 4 && row[2] <= 4 && row[4] <= 4
    ensures row[6] <= 1 && row[8] <= 1 && row[10] <= 1
    ensures row[12] <= 2 && row[14] <= 2
    ensures row[16] <= 1 && row[18] <= 1
  {
    match i
    case 0 => [2, 0, 2, 0, 2, 0, 1, 4, 1, 4, 0, 0, 1, 3, 0, 0, 1, 4, 0, 0]
    case _ => [2, 1, 2, 1, 2, 1, 1, 5, 1, 5, 0, 0, 1, 4, 0, 0, 1, 5, 0, 0]
  }

  function PrecodingTablePart3(i: nat): (row: seq<nat>)
    requires i < 2
    ensures |row| == 20
    ensures row[0] <= 4 && row[2] <= 4 && row[4] <= 4
    ensures row[6] <= 1 && row[8] <= 1 && row[10] <= 1
    ensures row[12] <= 2 && row[14] <= 2
    ensures row[16] <= 1 && row[18] <= 1
  {
    match i
    case 0 => [2, 2, 2, 2, 2, 2, 1, 6, 1, 6, 0, 0, 1, 5, 0, 0, 0, 0, 0, 0]
    case _ => [2, 3, 2, 3, 2, 3, 1, 7, 1, 7, 0, 0, 2, 1, 0, 0, 0, 0, 0, 0]
  }

  function PrecodingTablePart4(i: nat): (row: seq<nat>)
    requires i < 2
    ensures |row| == 20
    ensures row[0] <= 4 && row[2] <= 4 && row[4] <= 4
    ensures row[6] <= 1 && row[8] <= 1 && row[10] <= 1
    ensures row[12] <= 2 && row[14] <= 2
    ensures row[16] <= 1 && row[18] <= 1
  {
    match i
    case 0 => [2, 4, 2, 4, 2, 4, 1, 8, 1, 8, 0, 0, 2, 2, 0, 0, 0, 0, 0, 0]
    case _ => [2, 5, 2, 5, 2, 5, 1, 9, 1, 9, 0, 0, 0, 0, 0, 0, 0, 0, 0, 0]
  }

  function PrecodingTablePart5(i: nat): (row: seq<nat>)
    requires i < 2
    ensures |row| == 20
    ensures row[0] <= 4 && row[2] <= 4 && row[4] <= 4
    ensures row[6] <= 1 && row[8] <= 1 && row[10] <= 1
    ensures row[12] <= 2 && row[14] <= 2
    ensures row[16] <= 1 && row[18] <= 1
  {
    match i
    case 0 => [3, 0, 3, 0, 3, 0, 1, 10, 1, 10, 0, 0, 0, 0, 0, 0, 0, 0, 0, 0]
    case _ => [4, 0, 4, 0, 4, 0, 1, 11, 1, 11, 0, 0, 0, 0, 0, 0, 0, 0, 0, 0]
  }

  function PrecodingTablePart6(i: nat): (row: seq<nat>)
    requires i < 2
    ensures |row| == 20
    ensures row[0] <= 4 && row[2] <= 4 && row[4] <= 4
    ensures row[6] <= 1 && row[8] <= 1 && row[10] <= 1
    ensures row[12] <= 2 && row[14] <= 2
    ensures row[16] <= 1 && row[18] <= 1
  {
    match i
    case 0 => [1, 4, 1, 4, 0, 0, 1, 12, 0, 0, 0, 0, 0, 0, 0, 0, 0, 0, 0, 0]
    case _ => [1, 5, 1, 5, 0, 0, 1, 13, 0, 0, 0, 0, 0, 0, 0, 0, 0, 0, 0, 0]
  }

  function PrecodingTablePart7(i: nat): (row: seq<nat>)
    requires i < 2
    ensures |row| == 20
    ensures row[0] <= 4 && row[2] <= 4 && row[4] <= 4
    ensures row[6] <= 1 && row[8] <= 1 && row[10] <= 1
    ensures row[12] <= 2 && row[14] <= 2
    ensures row[16] <= 1 && row[18] <= 1
  {
    match i
    case 0 => [1, 6, 1, 6, 0, 0, 1, 14, 0, 0, 0, 0, 0, 0, 0, 0, 0, 0, 0, 0]
    case _ => [1, 7, 1, 7, 0, 0, 1, 15, 0, 0, 0, 0, 0, 0, 0, 0, 0, 0, 0, 0]
  }

  function PrecodingTablePart8(i: nat): (row: seq<nat>)
    requires i < 2
    ensures |row| == 20
    ensures row[0] <= 4 && row[2] <= 4 && row[4] <= 4
    ensures row[6] <= 1 && row[8] <= 1 && row[10] <= 1
    ensures row[12] <= 2 && row[14] <= 2
    ensures row[16] <= 1 && row[18] <= 1
  {
    match i
    case 0 => [1, 8, 1, 8, 0, 0, 1, 16, 0, 0, 0, 0, 0, 0, 0, 0, 0, 0, 0, 0]
    case _ => [1, 9, 1, 9, 0, 0, 1, 17, 0, 0, 0, 0, 0, 0, 0, 0, 0, 0, 0, 0]
  }

  function PrecodingTablePart9(i: nat): (row: seq<nat>)
    requires i < 2
    ensures |row| == 20
    ensures row[0] <= 4 && row[2] <= 4 && row[4] <= 4
    ensures row[6] <= 1 && row[8] <= 1 && row[10] <= 1
    ensures row[12] <= 2 && row[14] <= 2
    ensures row[16] <= 1 && row[18] <= 1
  {
    match i
    case 0 => [1, 10, 1, 10, 0, 0, 1, 18, 0, 0, 0, 0, 0, 0, 0, 0, 0, 0, 0, 0]
    case _ => [1, 11, 1, 11, 0, 0, 1, 19, 0, 0, 0, 0, 0, 0, 0, 0, 0, 0, 0, 0]
  }

  function PrecodingTablePart10(i: nat): (row: seq<nat>)
    requires i < 2
    ensures |row| == 20
    ensures row[0] <= 4 && row[2] <= 4 && row[4] <= 4
    ensures row[6] <= 1 && row[8] <= 1 && row[10] <= 1
    ensures row[12] <= 2 && row[14] <= 2
    ensures row[16] <= 1 && row[18] <= 1
  {
    match i
    case 0 => [2, 6, 2, 6, 0, 0, 1, 20, 0, 0, 0, 0, 0, 0, 0, 0, 0, 0, 0, 0]
    case _ => [2, 7, 2, 7, 0, 0, 1, 21, 0, 0, 0, 0, 0, 0, 0, 0, 0, 0, 0, 0]
  }

  function PrecodingTablePart11(i: nat): (row: seq<nat>)
    requires i < 2
    ensures |row| == 20
    ensures row[0] <= 4 && row[2] <= 4 && row[4] <= 4
    ensures row[6] <= 1 && row[8] <= 1 && row[10] <= 1
    ensures row[12] <= 2 && row[14] <= 2
    ensures row[16] <= 1 && row[18] <= 1
  {
    match i
    case 0 => [2, 8, 2, 8, 0, 0, 1, 22, 0, 0, 0, 0, 0, 0, 0, 0, 0, 0, 0, 0]
    case _ => [2, 9, 2, 9, 0, 0, 1, 23, 0, 0, 0, 0, 0, 0, 0, 0, 0, 0, 0, 0]
  }

  function PrecodingTablePart12(i: nat): (row: seq<nat>)
    requires i < 2
    ensures |row| == 20
    ensures row[0] <= 4 && row[2] <= 4 && row[4] <= 4
    ensures row[6] <= 1 && row[8] <= 1 && row[10] <= 1
    ensures row[12] <= 2 && row[14] <= 2
    ensures row[16] <= 1 && row[18] <= 1
  {
    match i
    case 0 => [2, 10, 2, 10, 0, 0, 1, 24, 0, 0, 0, 0, 0, 0, 0, 0, 0, 0, 0, 0]
    case _ => [2, 11, 2, 11, 0, 0, 1, 25, 0, 0, 0, 0, 0, 0, 0, 0, 0, 0, 0, 0]
  }

  function PrecodingTablePart13(i: nat): (row: seq<nat>)
    requires i < 2
    ensures |row| == 20
    ensures row[0] <= 4 && row[2] <= 4 && row[4] <= 4
    ensures row[6] <= 1 && row[8] <= 1 && row[10] <= 1
    ensures row[12] <= 2 && row[14] <= 2
    ensures row[16] <= 1 && row[18] <= 1
  {
    match i
    case 0 => [2, 12, 2, 12, 0, 0, 1, 26, 0, 0, 0, 0, 0, 0, 0, 0, 0, 0, 0, 0]
    case _ => [2, 13, 2, 13, 0, 0, 1, 27, 0, 0, 0, 0, 0, 0, 0, 0, 0, 0, 0, 0]
  }

  function PrecodingTablePart14(i: nat): (row: seq<nat>)
    requires i < 2
    ensures |row| == 20
    ensures row[0] <= 4 && row[2] <= 4 && row[4] <= 4
    ensures row[6] <= 1 && row[8] <= 1 && row[10] <= 1
    ensures row[12] <= 2 && row[14] <= 2
    ensures row[16] <= 1 && row[18] <= 1
  {
    match i
    case 0 => [3, 1, 3, 1, 0, 0, 0, 0, 0, 0, 0, 0, 0, 0, 0, 0, 0, 0, 0, 0]
    case _ => [3, 2, 3, 2, 0, 0, 0, 0, 0, 0, 0, 0, 0, 0, 0, 0, 0, 0, 0, 0]
  }

  function PrecodingTablePart15(i: nat): (row: seq<nat>)
    requires i < 2
    ensures |row| == 20
    ensures row[0] <= 4 && row[2] <= 4 && row[4] <= 4
    ensures row[6] <= 1 && row[8] <= 1 && row[10] <= 1
    ensures row[12] <= 2 && row[14] <= 2
    ensures row[16] <= 1 && row[18] <= 1
  {
    match i
    case 0 => [4, 1, 4, 1, 0, 0, 0, 0, 0, 0, 0, 0, 0, 0, 0, 0, 0, 0, 0, 0]
    case _ => [4, 2, 4, 2, 0, 0, 0, 0, 0, 0, 0, 0, 0, 0, 0, 0, 0, 0, 0, 0]
  }

  function PrecodingTablePart16(i: nat): (row: seq<nat>)
    requires i < 2
    ensures |row| == 20
    ensures row[0] <= 4 && row[2] <= 4 && row[4] <= 4
    ensures row[6] <= 1 && row[8] <= 1 && row[10] <= 1
    ensures row[12] <= 2 && row[14] <= 2
    ensures row[16] <= 1 && row[18] <= 1
  {
    match i
    case 0 => [1, 12, 0, 0, 0, 0, 0, 0, 0, 0, 0, 0, 0, 0, 0, 0, 0, 0, 0, 0]
    case _ => [1, 13, 0, 0, 0, 0, 0, 0, 0, 0, 0, 0, 0, 0, 0, 0, 0, 0, 0, 0]
  }

  function PrecodingTablePart17(i: nat): (row: seq<nat>)
    requires i < 2
    ensures |row| == 20
    ensures row[0] <= 4 && row[2] <= 4 && row[4] <= 4
    ensures row[6] <= 1 && row[8] <= 1 && row[10] <= 1
    ensures row[12] <= 2 && row[14] <= 2
    ensures row[16] <= 1 && row[18] <= 1
  {
    match i
    case 0 => [1, 14, 0, 0, 0, 0, 0, 0, 0, 0, 0, 0, 0, 0, 0, 0, 0, 0, 0, 0]
    case _ => [1, 15, 0, 0, 0, 0, 0, 0, 0, 0, 0, 0, 0, 0, 0, 0, 0, 0, 0, 0]
  }

  function PrecodingTablePart18(i: nat): (row: seq<nat>)
    requires i < 2
    ensures |row| == 20
    ensures row[0] <= 4 && row[2] <= 4 && row[4] <= 4
    ensures row[6] <= 1 && row[8] <= 1 && row[10] <= 1
    ensures row[12] <= 2 && row[14] <= 2
    ensures row[16] <= 1 && row[18] <= 1
  {
    match i
    case 0 => [1, 16, 0, 0, 0, 0, 0, 0, 0, 0, 0, 0, 0, 0, 0, 0, 0, 0, 0, 0]
    case _ => [1, 17, 0, 0, 0, 0, 0, 0, 0, 0, 0, 0, 0, 0, 0, 0, 0, 0, 0, 0]
  }

  function PrecodingTablePart19(i: nat): (row: seq<nat>)
    requires i < 2
    ensures |row| == 20
    ensures row[0] <= 4 && row[2] <= 4 && row[4] <= 4
    ensures row[6] <= 1 && row[8] <= 1 && row[10] <= 1
    ensures row[12] <= 2 && row[14] <= 2
    ensures row[16] <= 1 && row[18] <= 1
  {
    match i
    case 0 => [1, 18, 0, 0, 0, 0, 0, 0, 0, 0, 0, 0, 0, 0, 0, 0, 0, 0, 0, 0]
    case _ => [1, 19, 0, 0, 0, 0, 0, 0, 0, 0, 0, 0, 0, 0, 0, 0, 0, 0, 0, 0]
  }

  function PrecodingTablePart20(i: nat): (row: seq<nat>)
    requires i < 2
    ensures |row| == 20
    ensures row[0] <= 4 && row[2] <= 4 && row[4] <= 4
    ensures row[6] <= 1 && row[8] <= 1 && row[10] <= 1
    ensures row[12] <= 2 && row[14] <= 2
    ensures row[16] <= 1 && row[18] <= 1
  {
    match i
    case 0 => [1, 20, 0, 0, 0, 0, 0, 0, 0, 0, 0, 0, 0, 0, 0, 0, 0, 0, 0, 0]
    case _ => [1, 21, 0, 0, 0, 0, 0, 0, 0, 0, 0, 0, 0, 0, 0, 0, 0, 0, 0, 0]
  }

  function PrecodingTablePart21(i: nat): (row: seq<nat>)
    requires i < 2
    ensures |row| == 20
    ensures row[0] <= 4 && row[2] <= 4 && row[4] <= 4
    ensures row[6] <= 1 && row[8] <= 1 && row[10] <= 1
    ensures row[12] <= 2 && row[14] <= 2
    ensures row[16] <= 1 && row[18] <= 1
  {
    match i
    case 0 => [1, 22, 0, 0, 0, 0, 0, 0, 0, 0, 0, 0, 0, 0, 0, 0, 0, 0, 0, 0]
    case _ => [1, 23, 0, 0, 0, 0, 0, 0, 0, 0, 0, 0, 0, 0, 0, 0, 0, 0, 0, 0]
  }

  function PrecodingTablePart22(i: nat): (row: seq<nat>)
    requires i < 2
    ensures |row| == 20
    ensures row[0] <= 4 && row[2] <= 4 && row[4] <= 4
    ensures row[6] <= 1 && row[8] <= 1 && row[10] <= 1
    ensures row[12] <= 2 && row[14] <= 2
    ensures row[16] <= 1 && row[18] <= 1
  {
    match i
    case 0 => [1, 24, 0, 0, 0, 0, 0, 0, 0, 0, 0, 0, 0, 0, 0, 0, 0, 0, 0, 0]
    case _ => [1, 25, 0, 0, 0, 0, 0, 0, 0, 0, 0, 0, 0, 0, 0, 0, 0, 0, 0, 0]
  }

  function PrecodingTablePart23(i: nat): (row: seq<nat>)
    requires i < 2
    ensures |row| == 20
    ensures row[0] <= 4 && row[2] <= 4 && row[4] <= 4
    ensures row[6] <= 1 && row[8] <= 1 && row[10] <= 1
    ensures row[12] <= 2 && row[14] <= 2
    ensures row[16] <= 1 && row[18] <= 1
  {
    match i
    case 0 => [1, 26, 0, 0, 0, 0, 0, 0, 0, 0, 0, 0, 0, 0, 0, 0, 0, 0, 0, 0]
    case _ => [1, 27, 0, 0, 0, 0, 0, 0, 0, 0, 0, 0, 0, 0, 0, 0, 0, 0, 0, 0]
  }

  function PrecodingTablePart24(i: nat): (row: seq<nat>)
    requires i < 2
    ensures |row| == 20
    ensures row[0] <= 4 && row[2] <= 4 && row[4] <= 4
    ensures row[6] <= 1 && row[8] <= 1 && row[10] <= 1
    ensures row[12] <= 2 && row[14] <= 2
    ensures row[16] <= 1 && row[18] <= 1
  {
    match i
    case 0 => [2, 14, 0, 0, 0, 0, 0, 0, 0, 0, 0, 0, 0, 0, 0, 0, 0, 0, 0, 0]
    case _ => [2, 15, 0, 0, 0, 0, 0, 0, 0, 0, 0, 0, 0, 0, 0, 0, 0, 0, 0, 0]
  }

  function PrecodingTablePart25(i: nat): (row: seq<nat>)
    requires i < 2
    ensures |row| == 20
    ensures row[0] <= 4 && row[2] <= 4 && row[4] <= 4
    ensures row[6] <= 1 && row[8] <= 1 && row[10] <= 1
    ensures row[12] <= 2 && row[14] <= 2
    ensures row[16] <= 1 && row[18] <= 1
  {
    match i
    case 0 => [2, 16, 0, 0, 0, 0, 0, 0, 0, 0, 0, 0, 0, 0, 0, 0, 0, 0, 0, 0]
    case _ => [2, 17, 0, 0, 0, 0, 0, 0, 0, 0, 0, 0, 0, 0, 0, 0, 0, 0, 0, 0]
  }

  function PrecodingTablePart26(i: nat): (row: seq<nat>)
    requires i < 2
    ensures |row| == 20
    ensures row[0] <= 4 && row[2] <= 4 && row[4] <= 4
    ensures row[6] <= 1 && row[8] <= 1 && row[10] <= 1
    ensures row[12] <= 2 && row[14] <= 2
    ensures row[16] <= 1 && row[18] <= 1
  {
    match i
    case 0 => [2, 18, 0, 0, 0, 0, 0, 0, 0, 0, 0, 0, 0, 0, 0, 0, 0, 0, 0, 0]
    case _ => [2, 19, 0, 0, 0, 0, 0, 0, 0, 0, 0, 0, 0, 0, 0, 0, 0, 0, 0, 0]
  }

  function PrecodingTablePart27(i: nat): (row: seq<nat>)
    requires i < 2
    ensures |row| == 20
    ensures row[0] <= 4 && row[2] <= 4 && row[4] <= 4
    ensures row[6] <= 1 && row[8] <= 1 && row[10] <= 1
    ensures row[12] <= 2 && row[14] <= 2
    ensures row[16] <= 1 && row[18] <= 1
  {
    match i
    case 0 => [2, 20, 0, 0, 0, 0, 0, 0, 0, 0, 0, 0, 0, 0, 0, 0, 0, 0, 0, 0]
    case _ => [2, 21, 0, 0, 0, 0, 0, 0, 0, 0, 0, 0, 0, 0, 0, 0, 0, 0, 0, 0]
  }

  function PrecodingTablePart28(i: nat): (row: seq<nat>)
    requires i < 2
    ensures |row| == 20
    ensures row[0] <= 4 && row[2] <= 4 && row[4] <= 4
    ensures row[6] <= 1 && row[8] <= 1 && row[10] <= 1
    ensures row[12] <= 2 && row[14] <= 2
    ensures row[16] <= 1 && row[18] <= 1
  {
    match i
    case 0 => [3, 3, 0, 0, 0, 0, 0, 0, 0, 0, 0, 0, 0, 0, 0, 0, 0, 0, 0, 0]
    case _ => [3, 4, 0, 0, 0, 0, 0, 0, 0, 0, 0, 0, 0, 0, 0, 0, 0, 0, 0, 0]
  }

  function PrecodingTablePart29(i: nat): (row: seq<nat>)
    requires i < 2
    ensures |row| == 20
    ensures row[0] <= 4 && row[2] <= 4 && row[4] <= 4
    ensures row[6] <= 1 && row[8] <= 1 && row[10] <= 1
    ensures row[12] <= 2 && row[14] <= 2
    ensures row[16] <= 1 && row[18] <= 1
  {
    match i
    case 0 => [3, 5, 0, 0, 0, 0, 0, 0, 0, 0, 0, 0, 0, 0, 0, 0, 0, 0, 0, 0]
    case _ => [3, 6, 0, 0, 0, 0, 0, 0, 0, 0, 0, 0, 0, 0, 0, 0, 0, 0, 0, 0]
  }

  function PrecodingTablePart30(i: nat): (row: seq<nat>)
    requires i < 2
    ensures |row| == 20
    ensures row[0] <= 4 && row[2] <= 4 && row[4] <= 4
    ensures row[6] <= 1 && row[8] <= 1 && row[10] <= 1
    ensures row[12] <= 2 && row[14] <= 2
    ensures row[16] <= 1 && row[18] <= 1
  {
    match i
    case 0 => [4, 3, 0, 0, 0, 0, 0, 0, 0, 0, 0, 0, 0, 0, 0, 0, 0, 0, 0, 0]
    case _ => [4, 4, 0, 0, 0, 0, 0, 0, 0, 0, 0, 0, 0, 0, 0, 0, 0, 0, 0, 0]
  }

  function PrecodingTablePart31(i: nat): (row: seq<nat>)
    requires i < 2
    ensures |row| == 20
    ensures row[0] <= 4 && row[2] <= 4 && row[4] <= 4
    ensures row[6] <= 1 && row[8] <= 1 && row[10] <= 1
    ensures row[12] <= 2 && row[14] <= 2
    ensures row[16] <= 1 && row[18] <= 1
  {
    match i
    case 0 => [0, 0, 0, 0, 0, 0, 0, 0, 0, 0, 0, 0, 0, 0, 0, 0, 0, 0, 0, 0]
    case _ => [0, 0, 0, 0, 0, 0, 0, 0, 0, 0, 0, 0, 0, 0, 0, 0, 0, 0, 0, 0]
  }

  /** TS 38.212 Table 7.3.1.1.2-12: CDM groups without data, the 1 DMRS port number, front-loaded symbols. */
  function UlPortsTable12(i: nat): (row: seq<nat>)
    requires i < 14
    ensures |row| == 3
    ensures row[1] < 12
  {
    if i < 4 then UlPortsTable12Part0(i)
    else if i < 8 then UlPortsTable12Part1(i - 4)
    else if i < 12 then UlPortsTable12Part2(i - 8)
    else UlPortsTable12Part3(i - 12)
  }

  function UlPortsTable12Part0(i: nat): (row: seq<nat>)
    requires i < 4
    ensures |row| == 3
    ensures row[1] < 12
  {
    match i
    case 0 => [1, 0, 1]
    case 1 => [1, 1, 1]
    case 2 => [2, 0, 1]
    case _ => [2, 1, 1]
  }

  function UlPortsTable12Part1(i: nat): (row: seq<nat>)
    requires i < 4
    ensures |row| == 3
    ensures row[1] < 12
  {
    match i
    case 0 => [2, 2, 1]
    case 1 => [2, 3, 1]
    case 2 => [2, 0, 2]
    case _ => [2, 1, 2]
  }

  function UlPortsTable12Part2(i: nat): (row: seq<nat>)
    requires i < 4
    ensures |row| == 3
    ensures row[1] < 12
  {
    match i
    case 0 => [2, 2, 2]
    case 1 => [2, 3, 2]
    case 2 => [2, 4, 2]
    case _ => [2, 5, 2]
  }

  function UlPortsTable12Part3(i: nat): (row: seq<nat>)
    requires i < 2
    ensures |row| == 3
    ensures row[1] < 12
  {
    match i
    case 0 => [2, 6, 2]
    case _ => [2, 7, 2]
  }

  /** TS 38.212 Table 7.3.1.1.2-13: CDM groups without data, the 2 DMRS port numbers, front-loaded symbols. */
  function UlPortsTable13(i: nat): (row: seq<nat>)
    requires i < 10
    ensures |row| == 4
    ensures forall k :: 1 <= k <= 2 ==> row[k] < 12
  {
    if i < 4 then UlPortsTable13Part0(i)
    else if i < 8 then UlPortsTable13Part1(i - 4)
    else UlPortsTable13Part2(i - 8)
  }

  function UlPortsTable13Part0(i: nat): (row: seq<nat>)
    requires i < 4
    ensures |row| == 4
    ensures forall k :: 1 <= k <= 2 ==> row[k] < 12
  {
    match i
    case 0 => [1, 0, 1, 1]
    case 1 => [2, 0, 1, 1]
    case 2 => [2, 2, 3, 1]
    case _ => [2, 0, 2, 1]
  }

  function UlPortsTable13Part1(i: nat): (row: seq<nat>)
    requires i < 4
    ensures |row| == 4
    ensures forall k :: 1 <= k <= 2 ==> row[k] < 12
  {
    match i
    case 0 => [2, 0, 1, 2]
    case 1 => [2, 2, 3, 2]
    case 2 => [2, 4, 5, 2]
    case _ => [2, 6, 7, 2]
  }

  function UlPortsTable13Part2(i: nat): (row: seq<nat>)
    requires i < 2
    ensures |row| == 4
    ensures forall k :: 1 <= k <= 2 ==> row[k] < 12
  {
    match i
    case 0 => [2, 0, 4, 2]
    case _ => [2, 2, 6, 2]
  }

  /** TS 38.212 Table 7.3.1.1.2-14: CDM groups without data, the 3 DMRS port numbers, front-loaded symbols. */
  function UlPortsTable14(i: nat): (row: seq<nat>)
    requires i < 3
    ensures |row| == 5
    ensures forall k :: 1 <= k <= 3 ==> row[k] < 12
  {
    match i
    case 0 => [2, 0, 1, 2, 1]
    case 1 => [2, 0, 1, 4, 2]
    case _ => [2, 2, 3, 6, 2]
  }

  /** TS 38.212 Table 7.3.1.1.2-15: CDM groups without data, the 4 DMRS port numbers, front-loaded symbols. */
  function UlPortsTable15(i: nat): (row: seq<nat>)
    requires i < 4
    ensures |row| == 6
    ensures forall k :: 1 <= k <= 4 ==> row[k] < 12
  {
    match i
    case 0 => [2, 0, 1, 2, 3, 1]
    case 1 => [2, 0, 1, 4, 5, 2]
    case 2 => [2, 2, 3, 6, 7, 2]
    case _ => [2, 0, 2, 4, 6, 2]
  }

  /** TS 38.212 Table 7.3.1.1.2-16: CDM groups without data, the 1 DMRS port number. */
  function UlPortsTable16(i: nat): (row: seq<nat>)
    requires i < 12
    ensures |row| == 2
    ensures row[1] < 12
  {
    if i < 4 then UlPortsTable16Part0(i)
    else if i < 8 then UlPortsTable16Part1(i - 4)
    else UlPortsTable16Part2(i - 8)
  }

  function UlPortsTable16Part0(i: nat): (row: seq<nat>)
    requires i < 4
    ensures |row| == 2
    ensures row[1] < 12
  {
    match i
    case 0 => [1, 0]
    case 1 => [1, 1]
    case 2 => [2, 0]
    case _ => [2, 1]
  }

  function UlPortsTable16Part1(i: nat): (row: seq<nat>)
    requires i < 4
    ensures |row| == 2
    ensures row[1] < 12
  {
    match i
    case 0 => [2, 2]
    case 1 => [2, 3]
    case 2 => [3, 0]
    case _ => [3, 1]
  }

  function UlPortsTable16Part2(i: nat): (row: seq<nat>)
    requires i < 4
    ensures |row| == 2
    ensures row[1] < 12
  {
    match i
    case 0 => [3, 2]
    case 1 => [3, 3]
    case 2 => [3, 4]
    case _ => [3, 5]
  }

  /** TS 38.212 Table 7.3.1.1.2-17: CDM groups without data, the 2 DMRS port numbers. */
  function UlPortsTable17(i: nat): (row: seq<nat>)
    requires i < 7
    ensures |row| == 3
    ensures forall k :: 1 <= k <= 2 ==> row[k] < 12
  {
    if i < 4 then UlPortsTable17Part0(i)
    else UlPortsTable17Part1(i - 4)
  }

  function UlPortsTable17Part0(i: nat): (row: seq<nat>)
    requires i < 4
    ensures |row| == 3
    ensures forall k :: 1 <= k <= 2 ==> row[k] < 12
  {
    match i
    case 0 => [1, 0, 1]
    case 1 => [2, 0, 1]
    case 2 => [2, 2, 3]
    case _ => [3, 0, 1]
  }

  function UlPortsTable17Part1(i: nat): (row: seq<nat>)
    requires i < 3
    ensures |row| == 3
    ensures forall k :: 1 <= k <= 2 ==> row[k] < 12
  {
    match i
    case 0 => [3, 2, 3]
    case 1 => [3, 4, 5]
    case _ => [2, 0, 2]
  }

  /** TS 38.212 Table 7.3.1.1.2-18: CDM groups without data, the 3 DMRS port numbers. */
  function UlPortsTable18(i: nat): (row: seq<nat>)
    requires i < 3
    ensures |row| == 4
    ensures forall k :: 1 <= k <= 3 ==> row[k] < 12
  {
    match i
    case 0 => [2, 0, 1, 2]
    case 1 => [3, 0, 1, 2]
    case _ => [3, 3, 4, 5]
  }

  /** TS 38.212 Table 7.3.1.1.2-19: CDM groups without data, the 4 DMRS port numbers. */
  function UlPortsTable19(i: nat): (row: seq<nat>)
    requires i < 2
    ensures |row| == 5
    ensures forall k :: 1 <= k <= 4 ==> row[k] < 12
  {
    match i
    case 0 => [2, 0, 1, 2, 3]
    case _ => [3, 0, 1, 2, 3]
  }

  /** TS 38.212 Table 7.3.1.1.2-20: CDM groups without data, the 1 DMRS port number, front-loaded symbols. */
  function UlPortsTable20(i: nat): (row: seq<nat>)
    requires i < 28
    ensures |row| == 3
    ensures row[1] < 12
  {
    if i < 4 then UlPortsTable20Part0(i)
    else if i < 8 then UlPortsTable20Part1(i - 4)
    else if i < 12 then UlPortsTable20Part2(i - 8)
    else if i < 16 then UlPortsTable20Part3(i - 12)
    else if i < 20 then UlPortsTable20Part4(i - 16)
    else if i < 24 then UlPortsTable20Part5(i - 20)
    else UlPortsTable20Part6(i - 24)
  }

  function UlPortsTable20Part0(i: nat): (row: seq<nat>)
    requires i < 4
    ensures |row| == 3
    ensures row[1] < 12
  {
    match i
    case 0 => [1, 0, 1]
    case 1 => [1, 1, 1]
    case 2 => [2, 0, 1]
    case _ => [2, 1, 1]
  }

  function UlPortsTable20Part1(i: nat): (row: seq<nat>)
    requires i < 4
    ensures |row| == 3
    ensures row[1] < 12
  {
    match i
    case 0 => [2, 2, 1]
    case 1 => [2, 3, 1]
    case 2 => [3, 0, 1]
    case _ => [3, 1, 1]
  }

  function UlPortsTable20Part2(i: nat): (row: seq<nat>)
    requires i < 4
    ensures |row| == 3
    ensures row[1] < 12
  {
    match i
    case 0 => [3, 2, 1]
    case 1 => [3, 3, 1]
    case 2 => [3, 4, 1]
    case _ => [3, 5, 1]
  }

  function UlPortsTable20Part3(i: nat): (row: seq<nat>)
    requires i < 4
    ensures |row| == 3
    ensures row[1] < 12
  {
    match i
    case 0 => [3, 0, 2]
    case 1 => [3, 1, 2]
    case 2 => [3, 2, 2]
    case _ => [3, 3, 2]
  }

  function UlPortsTable20Part4(i: nat): (row: seq<nat>)
    requires i < 4
    ensures |row| == 3
    ensures row[1] < 12
  {
    match i
    case 0 => [3, 4, 2]
    case 1 => [3, 5, 2]
    case 2 => [3, 6, 2]
    case _ => [3, 7, 2]
  }

  function UlPortsTable20Part5(i: nat): (row: seq<nat>)
    requires i < 4
    ensures |row| == 3
    ensures row[1] < 12
  {
    match i
    case 0 => [3, 8, 2]
    case 1 => [3, 9, 2]
    case 2 => [3, 10, 2]
    case _ => [3, 11, 2]
  }

  function UlPortsTable20Part6(i: nat): (row: seq<nat>)
    requires i < 4
    ensures |row| == 3
    ensures row[1] < 12
  {
    match i
    case 0 => [1, 0, 2]
    case 1 => [1, 1, 2]
    case 2 => [1, 6, 2]
    case _ => [1, 7, 2]
  }

  /** TS 38.212 Table 7.3.1.1.2-21: CDM groups without data, the 2 DMRS port numbers, front-loaded symbols. */
  function UlPortsTable21(i: nat): (row: seq<nat>)
    requires i < 19
    ensures |row| == 4
    ensures forall k :: 1 <= k <= 2 ==> row[k] < 12
  {
    if i < 4 then UlPortsTable21Part0(i)
    else if i < 8 then UlPortsTable21Part1(i - 4)
    else if i < 12 then UlPortsTable21Part2(i - 8)
    else if i < 16 then UlPortsTable21Part3(i - 12)
    else UlPortsTable21Part4(i - 16)
  }

  function UlPortsTable21Part0(i: nat): (row: seq<nat>)
    requires i < 4
    ensures |row| == 4
    ensures forall k :: 1 <= k <= 2 ==> row[k] < 12
  {
    match i
    case 0 => [1, 0, 1, 1]
    case 1 => [2, 0, 1, 1]
    case 2 => [2, 2, 3, 1]
    case _ => [3, 0, 1, 1]
  }

  function UlPortsTable21Part1(i: nat): (row: seq<nat>)
    requires i < 4
    ensures |row| == 4
    ensures forall k :: 1 <= k <= 2 ==> row[k] < 12
  {
    match i
    case 0 => [3, 2, 3, 1]
    case 1 => [3, 4, 5, 1]
    case 2 => [2, 0, 2, 1]
    case _ => [3, 0, 1, 2]
  }

  function UlPortsTable21Part2(i: nat): (row: seq<nat>)
    requires i < 4
    ensures |row| == 4
    ensures forall k :: 1 <= k <= 2 ==> row[k] < 12
  {
    match i
    case 0 => [3, 2, 3, 2]
    case 1 => [3, 4, 5, 2]
    case 2 => [3, 6, 7, 2]
    case _ => [3, 8, 9, 2]
  }

  function UlPortsTable21Part3(i: nat): (row: seq<nat>)
    requires i < 4
    ensures |row| == 4
    ensures forall k :: 1 <= k <= 2 ==> row[k] < 12
  {
    match i
    case 0 => [3, 10, 11, 2]
    case 1 => [1, 0, 1, 2]
    case 2 => [1, 6, 7, 2]
    case _ => [2, 0, 1, 2]
  }

  function UlPortsTable21Part4(i: nat): (row: seq<nat>)
    requires i < 3
    ensures |row| == 4
    ensures forall k :: 1 <= k <= 2 ==> row[k] < 12
  {
    match i
    case 0 => [2, 2, 3, 2]
    case 1 => [2, 6, 7, 2]
    case _ => [2, 8, 9, 2]
  }

  /** TS 38.212 Table 7.3.1.1.2-22: CDM groups without data, the 3 DMRS port numbers, front-loaded symbols. */
  function UlPortsTable22(i: nat): (row: seq<nat>)
    requires i < 6
    ensures |row| == 5
    ensures forall k :: 1 <= k <= 3 ==> row[k] < 12
  {
    if i < 4 then UlPortsTable22Part0(i)
    else UlPortsTable22Part1(i - 4)
  }

  function UlPortsTable22Part0(i: nat): (row: seq<nat>)
    requires i < 4
    ensures |row| == 5
    ensures forall k :: 1 <= k <= 3 ==> row[k] < 12
  {
    match i
    case 0 => [2, 0, 1, 2, 1]
    case 1 => [3, 0, 1, 2, 1]
    case 2 => [3, 3, 4, 5, 1]
    case _ => [3, 0, 1, 6, 2]
  }

  function UlPortsTable22Part1(i: nat): (row: seq<nat>)
    requires i < 2
    ensures |row| == 5
    ensures forall k :: 1 <= k <= 3 ==> row[k] < 12
  {
    match i
    case 0 => [3, 2, 3, 8, 2]
    case _ => [3, 4, 5, 10, 2]
  }

  /** TS 38.212 Table 7.3.1.1.2-23: CDM groups without data, the 4 DMRS port numbers, front-loaded symbols. */
  function UlPortsTable23(i: nat): (row: seq<nat>)
    requires i < 5
    ensures |row| == 6
    ensures forall k :: 1 <= k <= 4 ==> row[k] < 12
  {
    if i < 4 then UlPortsTable23Part0(i)
    else UlPortsTable23Part1(i - 4)
  }

  function UlPortsTable23Part0(i: nat): (row: seq<nat>)
    requires i < 4
    ensures |row| == 6
    ensures forall k :: 1 <= k <= 4 ==> row[k] < 12
  {
    match i
    case 0 => [2, 0, 1, 2, 3, 1]
    case 1 => [3, 0, 1, 2, 3, 1]
    case 2 => [3, 0, 1, 6, 7, 2]
    case _ => [3, 2, 3, 8, 9, 2]
  }

  function UlPortsTable23Part1(i: nat): (row: seq<nat>)
    requires i < 1
    ensures |row| == 6
    ensures forall k :: 1 <= k <= 4 ==> row[k] < 12
  {
    [3, 4, 5, 10, 11, 2]
  }

  /** TS 38.212 Table 7.3.1.2.2-1 (DMRS type 1, one symbol): CDM groups, then one flag per port 1000..1003. */
  function DlPortsType1Len1(i: nat): (row: seq<nat>)
    requires i < 12
    ensures |row| == 5
    ensures forall k :: 1 <= k <= 4 ==> row[k] <= 1
  {
    if i < 4 then DlPortsType1Len1Part0(i)
    else if i < 8 then DlPortsType1Len1Part1(i - 4)
    else DlPortsType1Len1Part2(i - 8)
  }

  function DlPortsType1Len1Part0(i: nat): (row: seq<nat>)
    requires i < 4
    ensures |row| == 5
    ensures forall k :: 1 <= k <= 4 ==> row[k] <= 1
  {
    match i
    case 0 => [1, 1, 0, 0, 0]
    case 1 => [1, 0, 1, 0, 0]
    case 2 => [1, 1, 1, 0, 0]
    case _ => [2, 1, 0, 0, 0]
  }

  function DlPortsType1Len1Part1(i: nat): (row: seq<nat>)
    requires i < 4
    ensures |row| == 5
    ensures forall k :: 1 <= k <= 4 ==> row[k] <= 1
  {
    match i
    case 0 => [2, 0, 1, 0, 0]
    case 1 => [2, 0, 0, 1, 0]
    case 2 => [2, 0, 0, 0, 1]
    case _ => [2, 1, 1, 0, 0]
  }

  function DlPortsType1Len1Part2(i: nat): (row: seq<nat>)
    requires i < 4
    ensures |row| == 5
    ensures forall k :: 1 <= k <= 4 ==> row[k] <= 1
  {
    match i
    case 0 => [2, 0, 0, 1, 1]
    case 1 => [2, 1, 1, 1, 0]
    case 2 => [2, 1, 1, 1, 1]
    case _ => [2, 1, 0, 1, 0]
  }

  /** TS 38.212 Table 7.3.1.2.2-2, one codeword: CDM groups, one flag per port 1000..1007, front-loaded symbols. */
  function DlPortsType1Len2OneCw(i: nat): (row: seq<nat>)
    requires i < 31
    ensures |row| == 10
    ensures forall k :: 1 <= k <= 8 ==> row[k] <= 1
  {
    if i < 4 then DlPortsType1Len2OneCwPart0(i)
    else if i < 8 then DlPortsType1Len2OneCwPart1(i - 4)
    else if i < 12 then DlPortsType1Len2OneCwPart2(i - 8)
    else if i < 16 then DlPortsType1Len2OneCwPart3(i - 12)
    else if i < 20 then DlPortsType1Len2OneCwPart4(i - 16)
    else if i < 24 then DlPortsType1Len2OneCwPart5(i - 20)
    else if i < 28 then DlPortsType1Len2OneCwPart6(i - 24)
    else DlPortsType1Len2OneCwPart7(i - 28)
  }

  function DlPortsType1Len2OneCwPart0(i: nat): (row: seq<nat>)
    requires i < 4
    ensures |row| == 10
    ensures forall k :: 1 <= k <= 8 ==> row[k] <= 1
  {
    match i
    case 0 => [1, 1, 0, 0, 0, 0, 0, 0, 0, 1]
    case 1 => [1, 0, 1, 0, 0, 0, 0, 0, 0, 1]
    case 2 => [1, 1, 1, 0, 0, 0, 0, 0, 0, 1]
    case _ => [2, 1, 0, 0, 0, 0, 0, 0, 0, 1]
  }

  function DlPortsType1Len2OneCwPart1(i: nat): (row: seq<nat>)
    requires i < 4
    ensures |row| == 10
    ensures forall k :: 1 <= k <= 8 ==> row[k] <= 1
  {
    match i
    case 0 => [2, 0, 1, 0, 0, 0, 0, 0, 0, 1]
    case 1 => [2, 0, 0, 1, 0, 0, 0, 0, 0, 1]
    case 2 => [2, 0, 0, 0, 1, 0, 0, 0, 0, 1]
    case _ => [2, 1, 1, 0, 0, 0, 0, 0, 0, 1]
  }

  function DlPortsType1Len2OneCwPart2(i: nat): (row: seq<nat>)
    requires i < 4
    ensures |row| == 10
    ensures forall k :: 1 <= k <= 8 ==> row[k] <= 1
  {
    match i
    case 0 => [2, 0, 0, 1, 1, 0, 0, 0, 0, 1]
    case 1 => [2, 1, 1, 1, 0, 0, 0, 0, 0, 1]
    case 2 => [2, 1, 1, 1, 1, 0, 0, 0, 0, 1]
    case _ => [2, 1, 0, 1, 0, 0, 0, 0, 0, 1]
  }

  function DlPortsType1Len2OneCwPart3(i: nat): (row: seq<nat>)
    requires i < 4
    ensures |row| == 10
    ensures forall k :: 1 <= k <= 8 ==> row[k] <= 1
  {
    match i
    case 0 => [2, 1, 0, 0, 0, 0, 0, 0, 0, 2]
    case 1 => [2, 0, 1, 0, 0, 0, 0, 0, 0, 2]
    case 2 => [2, 0, 0, 1, 0, 0, 0, 0, 0, 2]
    case _ => [2, 0, 0, 0, 1, 0, 0, 0, 0, 2]
  }

  function DlPortsType1Len2OneCwPart4(i: nat): (row: seq<nat>)
    requires i < 4
    ensures |row| == 10
    ensures forall k :: 1 <= k <= 8 ==> row[k] <= 1
  {
    match i
    case 0 => [2, 0, 0, 0, 0, 1, 0, 0, 0, 2]
    case 1 => [2, 0, 0, 0, 0, 0, 1, 0, 0, 2]
    case 2 => [2, 0, 0, 0, 0, 0, 0, 1, 0, 2]
    case _ => [2, 0, 0, 0, 0, 0, 0, 0, 1, 2]
  }

  function DlPortsType1Len2OneCwPart5(i: nat): (row: seq<nat>)
    requires i < 4
    ensures |row| == 10
    ensures forall k :: 1 <= k <= 8 ==> row[k] <= 1
  {
    match i
    case 0 => [2, 1, 1, 0, 0, 0, 0, 0, 0, 2]
    case 1 => [2, 0, 0, 1, 1, 0, 0, 0, 0, 2]
    case 2 => [2, 0, 0, 0, 0, 1, 1, 0, 0, 2]
    case _ => [2, 0, 0, 0, 0, 0, 0, 1, 1, 2]
  }

  function DlPortsType1Len2OneCwPart6(i: nat): (row: seq<nat>)
    requires i < 4
    ensures |row| == 10
    ensures forall k :: 1 <= k <= 8 ==> row[k] <= 1
  {
    match i
    case 0 => [2, 1, 0, 0, 0, 1, 0, 0, 0, 2]
    case 1 => [2, 0, 0, 1, 0, 0, 0, 1, 0, 2]
    case 2 => [2, 1, 1, 0, 0, 1, 0, 0, 0, 2]
    case _ => [2, 0, 0, 1, 1, 0, 0, 1, 0, 2]
  }

  function DlPortsType1Len2OneCwPart7(i: nat): (row: seq<nat>)
    requires i < 3
    ensures |row| == 10
    ensures forall k :: 1 <= k <= 8 ==> row[k] <= 1
  {
    match i
    case 0 => [2, 1, 1, 0, 0, 1, 1, 0, 0, 2]
    case 1 => [2, 0, 0, 1, 1, 0, 0, 1, 1, 2]
    case _ => [2, 1, 0, 1, 0, 1, 0, 1, 0, 2]
  }

  /** TS 38.212 Table 7.3.1.2.2-2, two codewords. */
  function DlPortsType1Len2TwoCw(i: nat): (row: seq<nat>)
    requires i < 4
    ensures |row| == 10
    ensures forall k :: 1 <= k <= 8 ==> row[k] <= 1
  {
    match i
    case 0 => [2, 1, 1, 1, 1, 1, 0, 0, 0, 2]
    case 1 => [2, 1, 1, 1, 1, 1, 0, 1, 0, 2]
    case 2 => [2, 1, 1, 1, 1, 1, 1, 1, 0, 2]
    case _ => [2, 1, 1, 1, 1, 1, 1, 1, 1, 2]
  }

  /** TS 38.212 Table 7.3.1.2.2-3 (DMRS type 2, one symbol), one codeword: CDM groups, one flag per port 1000..1005. */
  function DlPortsType2Len1OneCw(i: nat): (row: seq<nat>)
    requires i < 24
    ensures |row| == 7
    ensures forall k :: 1 <= k <= 6 ==> row[k] <= 1
  {
    if i < 4 then DlPortsType2Len1OneCwPart0(i)
    else if i < 8 then DlPortsType2Len1OneCwPart1(i - 4)
    else if i < 12 then DlPortsType2Len1OneCwPart2(i - 8)
    else if i < 16 then DlPortsType2Len1OneCwPart3(i - 12)
    else if i < 20 then DlPortsType2Len1OneCwPart4(i - 16)
    else DlPortsType2Len1OneCwPart5(i - 20)
  }

  function DlPortsType2Len1OneCwPart0(i: nat): (row: seq<nat>)
    requires i < 4
    ensures |row| == 7
    ensures forall k :: 1 <= k <= 6 ==> row[k] <= 1
  {
    match i
    case 0 => [1, 1, 0, 0, 0, 0, 0]
    case 1 => [1, 0, 1, 0, 0, 0, 0]
    case 2 => [1, 1, 1, 0, 0, 0, 0]
    case _ => [2, 1, 0, 0, 0, 0, 0]
  }

  function DlPortsType2Len1OneCwPart1(i: nat): (row: seq<nat>)
    requires i < 4
    ensures |row| == 7
    ensures forall k :: 1 <= k <= 6 ==> row[k] <= 1
  {
    match i
    case 0 => [2, 0, 1, 0, 0, 0, 0]
    case 1 => [2, 0, 0, 1, 0, 0, 0]
    case 2 => [2, 0, 0, 0, 1, 0, 0]
    case _ => [2, 1, 1, 0, 0, 0, 0]
  }

  function DlPortsType2Len1OneCwPart2(i: nat): (row: seq<nat>)
    requires i < 4
    ensures |row| == 7
    ensures forall k :: 1 <= k <= 6 ==> row[k] <= 1
  {
    match i
    case 0 => [2, 0, 0, 1, 1, 0, 0]
    case 1 => [2, 1, 1, 1, 0, 0, 0]
    case 2 => [2, 1, 1, 1, 1, 0, 0]
    case _ => [3, 1, 0, 0, 0, 0, 0]
  }

  function DlPortsType2Len1OneCwPart3(i: nat): (row: seq<nat>)
    requires i < 4
    ensures |row| == 7
    ensures forall k :: 1 <= k <= 6 ==> row[k] <= 1
  {
    match i
    case 0 => [3, 0, 1, 0, 0, 0, 0]
    case 1 => [3, 0, 0, 1, 0, 0, 0]
    case 2 => [3, 0, 0, 0, 1, 0, 0]
    case _ => [3, 0, 0, 0, 0, 1, 0]
  }

  function DlPortsType2Len1OneCwPart4(i: nat): (row: seq<nat>)
    requires i < 4
    ensures |row| == 7
    ensures forall k :: 1 <= k <= 6 ==> row[k] <= 1
  {
    match i
    case 0 => [3, 0, 0, 0, 0, 0, 1]
    case 1 => [3, 1, 1, 0, 0, 0, 0]
    case 2 => [3, 0, 0, 1, 1, 0, 0]
    case _ => [3, 0, 0, 0, 0, 1, 1]
  }

  function DlPortsType2Len1OneCwPart5(i: nat): (row: seq<nat>)
    requires i < 4
    ensures |row| == 7
    ensures forall k :: 1 <= k <= 6 ==> row[k] <= 1
  {
    match i
    case 0 => [3, 1, 1, 1, 0, 0, 0]
    case 1 => [3, 0, 0, 0, 1, 1, 1]
    case 2 => [3, 1, 1, 1, 1, 0, 0]
    case _ => [3, 1, 0, 1, 0, 0, 0]
  }

  /** TS 38.212 Table 7.3.1.2.2-3, two codewords. */
  function DlPortsType2Len1TwoCw(i: nat): (row: seq<nat>)
    requires i < 2
    ensures |row| == 7
    ensures forall k :: 1 <= k <= 6 ==> row[k] <= 1
  {
    match i
    case 0 => [3, 1, 1, 1, 1, 1, 0]
    case _ => [3, 1, 1, 1, 1, 1, 1]
  }

  /** TS 38.212 Table 7.3.1.2.2-4 (DMRS type 2, two symbols), one codeword: CDM groups, one flag per port 1000..1011, front-loaded symbols. */
  function DlPortsType2Len2OneCw(i: nat): (row: seq<nat>)
    requires i < 58
    ensures |row| == 14
    ensures forall k :: 1 <= k <= 12 ==> row[k] <= 1
  {
    if i < 4 then DlPortsType2Len2OneCwPart0(i)
    else if i < 8 then DlPortsType2Len2OneCwPart1(i - 4)
    else if i < 12 then DlPortsType2Len2OneCwPart2(i - 8)
    else if i < 16 then DlPortsType2Len2OneCwPart3(i - 12)
    else if i < 20 then DlPortsType2Len2OneCwPart4(i - 16)
    else if i < 24 then DlPortsType2Len2OneCwPart5(i - 20)
    else if i < 28 then DlPortsType2Len2OneCwPart6(i - 24)
    else if i < 32 then DlPortsType2Len2OneCwPart7(i - 28)
    else if i < 36 then DlPortsType2Len2OneCwPart8(i - 32)
    else if i < 40 then DlPortsType2Len2OneCwPart9(i - 36)
    else if i < 44 then DlPortsType2Len2OneCwPart10(i - 40)
    else if i < 48 then DlPortsType2Len2OneCwPart11(i - 44)
    else if i < 52 then DlPortsType2Len2OneCwPart12(i - 48)
    else if i < 56 then DlPortsType2Len2OneCwPart13(i - 52)
    else DlPortsType2Len2OneCwPart14(i - 56)
  }

  function DlPortsType2Len2OneCwPart0(i: nat): (row: seq<nat>)
    requires i < 4
    ensures |row| == 14
    ensures forall k :: 1 <= k <= 12 ==> row[k] <= 1
  {
    match i
    case 0 => [1, 1, 0, 0, 0, 0, 0, 0, 0, 0, 0, 0, 0, 1]
    case 1 => [1, 0, 1, 0, 0, 0, 0, 0, 0, 0, 0, 0, 0, 1]
    case 2 => [1, 1, 1, 0, 0, 0, 0, 0, 0, 0, 0, 0, 0, 1]
    case _ => [2, 1, 0, 0, 0, 0, 0, 0, 0, 0, 0, 0, 0, 1]
  }

  function DlPortsType2Len2OneCwPart1(i: nat): (row: seq<nat>)
    requires i < 4
    ensures |row| == 14
    ensures forall k :: 1 <= k <= 12 ==> row[k] <= 1
  {
    match i
    case 0 => [2, 0, 1, 0, 0, 0, 0, 0, 0, 0, 0, 0, 0, 1]
    case 1 => [2, 0, 0, 1, 0, 0, 0, 0, 0, 0, 0, 0, 0, 1]
    case 2 => [2, 0, 0, 0, 1, 0, 0, 0, 0, 0, 0, 0, 0, 1]
    case _ => [2, 1, 1, 0, 0, 0, 0, 0, 0, 0, 0, 0, 0, 1]
  }

  function DlPortsType2Len2OneCwPart2(i: nat): (row: seq<nat>)
    requires i < 4
    ensures |row| == 14
    ensures forall k :: 1 <= k <= 12 ==> row[k] <= 1
  {
    match i
    case 0 => [2, 0, 0, 1, 1, 0, 0, 0, 0, 0, 0, 0, 0, 1]
    case 1 => [2, 1, 1, 1, 0, 0, 0, 0, 0, 0, 0, 0, 0, 1]
    case 2 => [2, 1, 1, 1, 1, 0, 0, 0, 0, 0, 0, 0, 0, 1]
    case _ => [3, 1, 0, 0, 0, 0, 0, 0, 0, 0, 0, 0, 0, 1]
  }

  function DlPortsType2Len2OneCwPart3(i: nat): (row: seq<nat>)
    requires i < 4
    ensures |row| == 14
    ensures forall k :: 1 <= k <= 12 ==> row[k] <= 1
  {
    match i
    case 0 => [3, 0, 1, 0, 0, 0, 0, 0, 0, 0, 0, 0, 0, 1]
    case 1 => [3, 0, 0, 1, 0, 0, 0, 0, 0, 0, 0, 0, 0, 1]
    case 2 => [3, 0, 0, 0, 1, 0, 0, 0, 0, 0, 0, 0, 0, 1]
    case _ => [3, 0, 0, 0, 0, 1, 0, 0, 0, 0, 0, 0, 0, 1]
  }

  function DlPortsType2Len2OneCwPart4(i: nat): (row: seq<nat>)
    requires i < 4
    ensures |row| == 14
    ensures forall k :: 1 <= k <= 12 ==> row[k] <= 1
  {
    match i
    case 0 => [3, 0, 0, 0, 0, 0, 1, 0, 0, 0, 0, 0, 0, 1]
    case 1 => [3, 1, 1, 0, 0, 0, 0, 0, 0, 0, 0, 0, 0, 1]
    case 2 => [3, 0, 0, 1, 1, 0, 0, 0, 0, 0, 0, 0, 0, 1]
    case _ => [3, 0, 0, 0, 0, 1, 1, 0, 0, 0, 0, 0, 0, 1]
  }

  function DlPortsType2Len2OneCwPart5(i: nat): (row: seq<nat>)
    requires i < 4
    ensures |row| == 14
    ensures forall k :: 1 <= k <= 12 ==> row[k] <= 1
  {
    match i
    case 0 => [3, 1, 1, 1, 0, 0, 0, 0, 0, 0, 0, 0, 0, 1]
    case 1 => [3, 0, 0, 0, 1, 1, 1, 0, 0, 0, 0, 0, 0, 1]
    case 2 => [3, 1, 1, 1, 1, 0, 0, 0, 0, 0, 0, 0, 0, 1]
    case _ => [2, 1, 0, 1, 0, 0, 0, 0, 0, 0, 0, 0, 0, 1]
  }

  function DlPortsType2Len2OneCwPart6(i: nat): (row: seq<nat>)
    requires i < 4
    ensures |row| == 14
    ensures forall k :: 1 <= k <= 12 ==> row[k] <= 1
  {
    match i
    case 0 => [3, 1, 0, 0, 0, 0, 0, 0, 0, 0, 0, 0, 0, 2]
    case 1 => [3, 0, 1, 0, 0, 0, 0, 0, 0, 0, 0, 0, 0, 2]
    case 2 => [3, 0, 0, 1, 0, 0, 0, 0, 0, 0, 0, 0, 0, 2]
    case _ => [3, 0, 0, 0, 1, 0, 0, 0, 0, 0, 0, 0, 0, 2]
  }

  function DlPortsType2Len2OneCwPart7(i: nat): (row: seq<nat>)
    requires i < 4
    ensures |row| == 14
    ensures forall k :: 1 <= k <= 12 ==> row[k] <= 1
  {
    match i
    case 0 => [3, 0, 0, 0, 0, 1, 0, 0, 0, 0, 0, 0, 0, 2]
    case 1 => [3, 0, 0, 0, 0, 0, 1, 0, 0, 0, 0, 0, 0, 2]
    case 2 => [3, 0, 0, 0, 0, 0, 0, 1, 0, 0, 0, 0, 0, 2]
    case _ => [3, 0, 0, 0, 0, 0, 0, 0, 1, 0, 0, 0, 0, 2]
  }

  function DlPortsType2Len2OneCwPart8(i: nat): (row: seq<nat>)
    requires i < 4
    ensures |row| == 14
    ensures forall k :: 1 <= k <= 12 ==> row[k] <= 1
  {
    match i
    case 0 => [3, 0, 0, 0, 0, 0, 0, 0, 0, 1, 0, 0, 0, 2]
    case 1 => [3, 0, 0, 0, 0, 0, 0, 0, 0, 0, 1, 0, 0, 2]
    case 2 => [3, 0, 0, 0, 0, 0, 0, 0, 0, 0, 0, 1, 0, 2]
    case _ => [3, 0, 0, 0, 0, 0, 0, 0, 0, 0, 0, 0, 1, 2]
  }

  function DlPortsType2Len2OneCwPart9(i: nat): (row: seq<nat>)
    requires i < 4
    ensures |row| == 14
    ensures forall k :: 1 <= k <= 12 ==> row[k] <= 1
  {
    match i
    case 0 => [3, 1, 1, 0, 0, 0, 0, 0, 0, 0, 0, 0, 0, 2]
    case 1 => [3, 0, 0, 1, 1, 0, 0, 0, 0, 0, 0, 0, 0, 2]
    case 2 => [3, 0, 0, 0, 0, 1, 1, 0, 0, 0, 0, 0, 0, 2]
    case _ => [3, 0, 0, 0, 0, 0, 0, 1, 1, 0, 0, 0, 0, 2]
  }

  function DlPortsType2Len2OneCwPart10(i: nat): (row: seq<nat>)
    requires i < 4
    ensures |row| == 14
    ensures forall k :: 1 <= k <= 12 ==> row[k] <= 1
  {
    match i
    case 0 => [3, 0, 0, 0, 0, 0, 0, 0, 0, 1, 1, 0, 0, 2]
    case 1 => [3, 0, 0, 0, 0, 0, 0, 0, 0, 0, 0, 1, 1, 2]
    case 2 => [3, 1, 1, 0, 0, 0, 0, 1, 0, 0, 0, 0, 0, 2]
    case _ => [3, 0, 0, 1, 1, 0, 0, 0, 0, 1, 0, 0, 0, 2]
  }

  function DlPortsType2Len2OneCwPart11(i: nat): (row: seq<nat>)
    requires i < 4
    ensures |row| == 14
    ensures forall k :: 1 <= k <= 12 ==> row[k] <= 1
  {
    match i
    case 0 => [3, 0, 0, 0, 0, 1, 1, 0, 0, 0, 0, 1, 0, 2]
    case 1 => [3, 1, 1, 0, 0, 0, 0, 1, 1, 0, 0, 0, 0, 2]
    case 2 => [3, 0, 0, 1, 1, 0, 0, 0, 0, 1, 1, 0, 0, 2]
    case _ => [3, 0, 0, 0, 0, 1, 1, 0, 0, 0, 0, 1, 1, 2]
  }

  function DlPortsType2Len2OneCwPart12(i: nat): (row: seq<nat>)
    requires i < 4
    ensures |row| == 14
    ensures forall k :: 1 <= k <= 12 ==> row[k] <= 1
  {
    match i
    case 0 => [1, 1, 0, 0, 0, 0, 0, 0, 0, 0, 0, 0, 0, 2]
    case 1 => [1, 0, 1, 0, 0, 0, 0, 0, 0, 0, 0, 0, 0, 2]
    case 2 => [1, 0, 0, 0, 0, 0, 0, 1, 0, 0, 0, 0, 0, 2]
    case _ => [1, 0, 0, 0, 0, 0, 0, 0, 1, 0, 0, 0, 0, 2]
  }

  function DlPortsType2Len2OneCwPart13(i: nat): (row: seq<nat>)
    requires i < 4
    ensures |row| == 14
    ensures forall k :: 1 <= k <= 12 ==> row[k] <= 1
  {
    match i
    case 0 => [1, 1, 1, 0, 0, 0, 0, 0, 0, 0, 0, 0, 0, 2]
    case 1 => [1, 0, 0, 0, 0, 0, 0, 1, 1, 0, 0, 0, 0, 2]
    case 2 => [2, 1, 1, 0, 0, 0, 0, 0, 0, 0, 0, 0, 0, 2]
    case _ => [2, 0, 0, 1, 1, 0, 0, 0, 0, 0, 0, 0, 0, 2]
  }

  function DlPortsType2Len2OneCwPart14(i: nat): (row: seq<nat>)
    requires i < 2
    ensures |row| == 14
    ensures forall k :: 1 <= k <= 12 ==> row[k] <= 1
  {
    match i
    case 0 => [2, 0, 0, 0, 0, 0, 0, 1, 1, 0, 0, 0, 0, 2]
    case _ => [2, 0, 0, 0, 0, 0, 0, 0, 0, 1, 1, 0, 0, 2]
  }

  /** TS 38.212 Table 7.3.1.2.2-4, two codewords. */
  function DlPortsType2Len2TwoCw(i: nat): (row: seq<nat>)
    requires i < 6
    ensures |row| == 14
    ensures forall k :: 1 <= k <= 12 ==> row[k] <= 1
  {
    if i < 4 then DlPortsType2Len2TwoCwPart0(i)
    else DlPortsType2Len2TwoCwPart1(i - 4)
  }

  function DlPortsType2Len2TwoCwPart0(i: nat): (row: seq<nat>)
    requires i < 4
    ensures |row| == 14
    ensures forall k :: 1 <= k <= 12 ==> row[k] <= 1
  {
    match i
    case 0 => [3, 1, 1, 1, 1, 1, 0, 0, 0, 0, 0, 0, 0, 1]
    case 1 => [3, 1, 1, 1, 1, 1, 1, 0, 0, 0, 0, 0, 0, 1]
    case 2 => [2, 1, 1, 1, 1, 0, 0, 1, 0, 0, 0, 0, 0, 2]
    case _ => [2, 1, 1, 1, 1, 0, 0, 1, 0, 1, 0, 0, 0, 2]
  }

  function DlPortsType2Len2TwoCwPart1(i: nat): (row: seq<nat>)
    requires i < 2
    ensures |row| == 14
    ensures forall k :: 1 <= k <= 12 ==> row[k] <= 1
  {
    match i
    case 0 => [2, 1, 1, 1, 1, 0, 0, 1, 1, 1, 0, 0, 0, 2]
    case _ => [2, 1, 1, 1, 1, 0, 0, 1, 1, 1, 1, 0, 0, 2]
  }
}

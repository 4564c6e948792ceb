# A verified model of the OpenAirInterface 5G NR radio-stack core

This project models, in Dafny, a part of the OpenAirInterface (OAI) 5G New Radio software stack. It states and proves the properties its C code promises or that the 3GPP standards it implements require. The parts modelled:

- **LDPC rate matching** (`nr_rate_matching.c`). This covers:
  - the k0 starting positions;
  - the circular-buffer length with and without a limited buffer (TS 38.212 section 5.4.2.1);
  - bit selection with filler bits skipped;
  - the row/column bit interleaver and de-interleaver, and their inverse relation;
  - the receive-side soft combining.
- **FAPI P7 messages** (`nr_fapi_p7.c`, `nr_fapi_p7_utils.c`). This covers:
  - the DL_TTI, UL_TTI, UL_DCI, TX_DATA, SLOT, RX_DATA, CRC, UCI, SRS and RACH records;
  - their copy, equality and size helpers;
  - the wire encoding of the DL_TTI.request, and the round trip of pack and unpack;
  - the P7 message header.
- **TDD frame configuration** (`nr_mac_common_tdd.c`, `config.c`, `phy_frame_config_nr.c`). This covers:
  - the slot bitmaps of one and two TDD patterns;
  - the counts of DL, UL and mixed slots;
  - the simulator's fixed configuration;
  - the gNB's K1/K2 timing tables;
  - the PMI codebook setup.
- **UE MAC** (`nr_ue_scheduler.c`, `mac_tables.c`). This covers:
  - PUSCH and SRS timing;
  - BSR indices;
  - CSI-RS resource clipping;
  - the UL configuration list;
  - DMRS antenna-port tables (TS 38.212 section 7.3.1);
  - packBits.
- **Random access** (`nr_ra_procedures.c`). This covers:
  - the choice of 4-step or 2-step access and of contention-free or contention-based access;
  - preamble group and index selection;
  - power ramping;
  - RA response windows (TS 38.321 section 5.1, TS 38.331).
- **CSI measurement at the UE** (`csi_rx.c`). This covers:
  - which OFDM symbols carry CSI-RS (TS 38.211 Table 7.4.1.5.3-1);
  - power estimation;
  - rank, PMI and CQI selection.
- **5G NAS** (`nr_nas_msg.c`). This covers:
  - message-type classification;
  - NAS COUNT recovery and security-header handling on reception;
  - the key-derivation inputs for K_NASint and K_gNB;
  - the registration type;
  - the serving-network name;
  - S-NSSAI coding and the allowed-NSSAI lookup.
- **F1AP F1 Setup** (`f1ap_interface_management.c`). This covers:
  - the NRNRB table, TAC coding and the RRC-version octet;
  - encode and decode of the served-cell list and of the request;
  - copy and equality.
- **Telnet O1 commands** (`telnetsrv_o1.c`): reading `id value` fields, and the `set_config` and `set_bwconfig` presets.
- **BCH scheduling at the gNB** (`gNB_scheduler_bch.c`). This covers:
  - MIB cadence and payload;
  - SSB periodicity;
  - the SSB burst bitmap;
  - the VRB map;
  - other-SIB occasions.
- **The Xilinx DMA LDPC offload** (`nrLDPC_coding_xdma_offload.c`, `nrLDPC_coding_xdma.c`). This covers:
  - the lifting-size set and index;
  - the control word;
  - the DMA sizes and code-block offsets;
  - the split of segments into preparation jobs;
  - per-segment CRC results.
- **Modulation, layer mapping and precoding** (`nr_modulation.c`): QAM table lookup, the layer mapping of TS 38.211 Table 7.3.1.3-1 and its inverse, and the precoder.

How the C code is represented:

- C records are Dafny datatypes and arrays are sequences.
- Integer widths are explicit where the code depends on them: `Wrap32`, `Wrap16` and truncating division. The exceptions are listed under "## Left out", such as the int8_t slot counts of the TDD patterns.
- A call that aborts the program (`AssertFatal`, `DevAssert`, `abort`) is the `Fatal` outcome of `Common.Outcome`.

Each operation has a partner: an inverse, a reference definition from the standard, or an invariant. A lemma connects the operation to its partner for all inputs.

Several places where the C code departs from what it evidently intends are modelled twice (see "## Findings"):

- once as written, with a lemma that exhibits the difference;
- once corrected, with the intended property proved.

The rest of the model uses the corrected definitions.

## Model

| member | source | states |
|---|---|---|
| RateMatching.IndexK0 | openair1/PHY/CODING/nrLDPC_coding/nrLDPC_coding_segment/nr_rate_matching.c:28 | the k0 column of each redundancy version lies inside the base graph's 66 or 50 columns, and is 0 for rv 0 |
| RateMatching.Interleave | openair1/PHY/CODING/nrLDPC_coding/nrLDPC_coding_segment/nr_rate_matching.c:30-445 | the interleaver stops the program exactly when Qm is not 2, 4, 6 or 8, and otherwise produces E bits |
| RateMatching.InterleavePlacement | openair1/PHY/CODING/nrLDPC_coding/nrLDPC_coding_segment/nr_rate_matching.c:30-445 | bit i*Qm + j of the output is bit j*(E/Qm) + i of the input |
| RateMatching.InterleaveTail | openair1/PHY/CODING/nrLDPC_coding/nrLDPC_coding_segment/nr_rate_matching.c:30-33 | the bits past (E/Qm)*Qm stay zero because the output is cleared first |
| RateMatching.Deinterleave | openair1/PHY/CODING/nrLDPC_coding/nrLDPC_coding_segment/nr_rate_matching.c:447-514 | the deinterleaver stops the program exactly when Qm is invalid or does not divide E, and otherwise produces E soft values |
| RateMatching.DeinterleavePlacement | openair1/PHY/CODING/nrLDPC_coding/nrLDPC_coding_segment/nr_rate_matching.c:447-514 | soft value i*Qm + j of the input lands at position j*(E/Qm) + i |
| RateMatching.DeinterleaveInterleave | openair1/PHY/CODING/nrLDPC_coding/nrLDPC_coding_segment/nr_rate_matching.c:30-514 | deinterleaving an interleaved block gives the block back whenever Qm divides E |
| RateMatching.InterleaveDeinterleave | openair1/PHY/CODING/nrLDPC_coding/nrLDPC_coding_segment/nr_rate_matching.c:30-514 | interleaving a deinterleaved block gives the block back whenever Qm divides E |
| RateMatching.CircularBufferLength | openair1/PHY/CODING/nrLDPC_coding/nrLDPC_coding_segment/nr_rate_matching.c:532-540 | Ncb is N = 66 Zc or 50 Zc without limited-buffer rate matching, else min(N, 3 Tbslbrm / (2C)); never above N |
| RateMatching.ScaledStart | openair1/PHY/CODING/nrLDPC_coding/nrLDPC_coding_segment/nr_rate_matching.c:542 | the scaled column offset floor(col * Ncb / N) * Zc stays below Ncb |
| RateMatching.StartPosition | openair1/PHY/CODING/nrLDPC_coding/nrLDPC_coding_segment/nr_rate_matching.c:542 | the start position k0 lies inside the circular buffer |
| RateMatching.SelectedIndexValid | openair1/PHY/CODING/nrLDPC_coding/nrLDPC_coding_segment/nr_rate_matching.c:572-607 | every bit the transmitter sends is read from below Ncb and outside the filler range |
| RateMatching.SelectionPeriodic | openair1/PHY/CODING/nrLDPC_coding/nrLDPC_coding_segment/nr_rate_matching.c:596-607 | once every selectable bit has been sent, the same bits are sent again in the same order |
| RateMatching.SelectionInjective | openair1/PHY/CODING/nrLDPC_coding/nrLDPC_coding_segment/nr_rate_matching.c:575-594 | within one pass no position of the circular buffer is sent twice |
| RateMatching.RateMatchTx | openair1/PHY/CODING/nrLDPC_coding/nrLDPC_coding_segment/nr_rate_matching.c:516-611 | returns -1 and no bits exactly on C == 0, Foffset > E or Foffset > Ncb; otherwise E bits, bit k being d at the k-th selected position |
| RateMatching.SelectFirstPass | openair1/PHY/CODING/nrLDPC_coding/nrLDPC_coding_segment/nr_rate_matching.c:572-594 | the two block copies send the selected bits from k0 on and stop at E bits or at the end of the buffer, on a pass boundary |
| RateMatching.FirstPassBeforeFiller | openair1/PHY/CODING/nrLDPC_coding/nrLDPC_coding_segment/nr_rate_matching.c:576-585 | from a k0 before the filler range, the copy up to Foffset followed by the copy from Foffset + F are the selected bits |
| RateMatching.FirstPassAfterFiller | openair1/PHY/CODING/nrLDPC_coding/nrLDPC_coding_segment/nr_rate_matching.c:586-593 | from a k0 after the filler range, one block copy gives the selected bits |
| RateMatching.SelectRepetitions | openair1/PHY/CODING/nrLDPC_coding/nrLDPC_coding_segment/nr_rate_matching.c:596-608 | the repetition loop extends the selected bits to exactly E, wrapping around the buffer |
| RateMatching.AsWrittenRepetitionReadsPastBuffer | openair1/PHY/CODING/nrLDPC_coding/nrLDPC_coding_segment/nr_rate_matching.c:602-605 | for a buffer whose filler range ends at Ncb, the coded repetition pass reads d[Ncb] |
| RateMatching.SoftCombine | openair1/PHY/CODING/nrLDPC_coding/nrLDPC_coding_segment/nr_rate_matching.c:664-707 | the reference combining adds the first n soft values into their selected positions and leaves the filler range and everything from Ncb on unchanged |
| RateMatching.InitialBuffer | openair1/PHY/CODING/nrLDPC_coding/nrLDPC_coding_segment/nr_rate_matching.c:661-662 | with clear == 1 the buffer is zeroed on [0, Ncb), otherwise it keeps the previous soft values |
| RateMatching.RateMatchRx | openair1/PHY/CODING/nrLDPC_coding/nrLDPC_coding_segment/nr_rate_matching.c:613-709 | returns -1 and leaves d unchanged exactly on the three parameter errors; otherwise d is the initial buffer with all E soft values combined into their selected positions |
| RateMatching.CombineFirstPass | openair1/PHY/CODING/nrLDPC_coding/nrLDPC_coding_segment/nr_rate_matching.c:664-686 | the first two loops combine the soft values from k0 to the end of the buffer and stop on a pass boundary |
| RateMatching.CombineToFiller | openair1/PHY/CODING/nrLDPC_coding/nrLDPC_coding_segment/nr_rate_matching.c:665-674 | the loop before the filler range runs only when k0 is below Foffset, and then stops at Foffset or at E |
| RateMatching.CombineToEnd | openair1/PHY/CODING/nrLDPC_coding/nrLDPC_coding_segment/nr_rate_matching.c:675-686 | the loop after the filler range combines up to Ncb or E and ends on a pass boundary |
| RateMatching.CombineRepetitions | openair1/PHY/CODING/nrLDPC_coding/nrLDPC_coding_segment/nr_rate_matching.c:688-707 | the repetition passes combine every remaining soft value |
| RateMatching.CombinePass | openair1/PHY/CODING/nrLDPC_coding/nrLDPC_coding_segment/nr_rate_matching.c:689-706 | one repetition pass combines at least one more soft value and ends on a pass boundary |
| RateMatching.CombineBeforeFiller | openair1/PHY/CODING/nrLDPC_coding/nrLDPC_coding_segment/nr_rate_matching.c:689-697 | the part of a pass before Foffset combines Foffset soft values unless E is reached first |
| RateMatching.CombineAfterFiller | openair1/PHY/CODING/nrLDPC_coding/nrLDPC_coding_segment/nr_rate_matching.c:698-706 | the part of a pass after the filler range completes the pass unless E is reached first |
| RateMatching.SlotStep | openair1/PHY/CODING/nrLDPC_coding/nrLDPC_coding_segment/nr_rate_matching.c:698-706 | the k-th selected position is the one the loop index stands at, and the next one follows it, wrapping at Ncb |
| RateMatching.CombineStep | openair1/PHY/CODING/nrLDPC_coding/nrLDPC_coding_segment/nr_rate_matching.c:702 | adding one soft value at its selected position extends the reference combining by one |
| RateMatching.SoftCombineSinglePass | openair1/PHY/CODING/nrLDPC_coding/nrLDPC_coding_segment/nr_rate_matching.c:664-686 | without repetition each selected position receives exactly one soft value added to what it held |
| RateMatching.UntouchedBefore | openair1/PHY/CODING/nrLDPC_coding/nrLDPC_coding_segment/nr_rate_matching.c:661-707 | a position that no selection hits keeps its value |
| FapiDlTti.BeamformingEqIffCopiesEqual | nfapi/open-nFAPI/fapi/src/nr_fapi_p7_utils.c:25-39 | two beamforming blocks compare equal exactly when their copies coincide, so only the counted PRGs and digital interfaces are compared |
| FapiDlTti.CopyBeamformingIdempotent | nfapi/open-nFAPI/fapi/src/nr_fapi_p7_utils.c:1015-1027 | copying a copied beamforming block changes nothing |
| FapiDlTti.DciEqIffCopiesEqual | nfapi/open-nFAPI/fapi/src/nr_fapi_p7_utils.c:41-77 | two DL DCIs compare equal exactly when their copies coincide |
| FapiDlTti.PdcchEqIffCopiesEqual | nfapi/open-nFAPI/fapi/src/nr_fapi_p7_utils.c:41-77 | two PDCCH PDUs compare equal exactly when their copies coincide, over the numDlDci DCIs announced |
| FapiDlTti.CopyPdcchIdempotent | nfapi/open-nFAPI/fapi/src/nr_fapi_p7_utils.c:1029-1063 | copying a copied PDCCH PDU changes nothing |
| FapiDlTti.PdschEqIffCopiesEqual | nfapi/open-nFAPI/fapi/src/nr_fapi_p7_utils.c:79-130 | two PDSCH PDUs compare equal exactly when their copies coincide, over the codewords announced |
| FapiDlTti.CopyPdschIdempotent | nfapi/open-nFAPI/fapi/src/nr_fapi_p7_utils.c:1065-1115 | copying a copied PDSCH PDU changes nothing |
| FapiDlTti.PlainEqIffCopiesEqual | nfapi/open-nFAPI/fapi/src/nr_fapi_p7_utils.c:132-166 | two CSI-RS or SSB PDUs compare equal exactly when their copies coincide |
| FapiDlTti.CopyDlPdu | nfapi/open-nFAPI/fapi/src/nr_fapi_p7_utils.c:1151-1173 | the copy of a DL_TTI PDU stops the program exactly for an unknown PDU type, and keeps the type and size |
| FapiDlTti.DlPduEqIffCopiesEqual | nfapi/open-nFAPI/fapi/src/nr_fapi_p7_utils.c:168-213 | two PDUs compare equal exactly when the first has a known type and the copies coincide |
| FapiDlTti.CopyDlPduIdempotent | nfapi/open-nFAPI/fapi/src/nr_fapi_p7_utils.c:1151-1173 | copying a copied PDU changes nothing |
| FapiDlTti.CopyDlTtiRequest | nfapi/open-nFAPI/fapi/src/nr_fapi_p7_utils.c:1175-1201 | the copy of a DL_TTI.request stops the program exactly when a listed PDU has an unknown type, and otherwise keeps nPDUs PDUs and nGroup groups |
| FapiDlTti.DlTtiEqIffCopiesEqual | nfapi/open-nFAPI/fapi/src/nr_fapi_p7_utils.c:168-213 | eq_dl_tti_request holds exactly when both messages copy successfully to the same message |
| FapiDlTti.CopyDlTtiIdempotent | nfapi/open-nFAPI/fapi/src/nr_fapi_p7_utils.c:1175-1201 | copying a copied DL_TTI.request changes nothing |
| FapiDlTti.DlTtiCopyThenEq | nfapi/open-nFAPI/fapi/src/nr_fapi_p7_utils.c:1175-1201 | a message compares equal to its copy, in either order |
| FapiDlTti.DlTtiUnknownType | nfapi/open-nFAPI/fapi/src/nr_fapi_p7_utils.c:199-201 | a PDU of unknown type makes the message unequal to every message, and its copy stops the program |
| FapiDlTti.DlTtiEqSymmetric | nfapi/open-nFAPI/fapi/src/nr_fapi_p7_utils.c:168-213 | eq_dl_tti_request is symmetric |
| FapiDlTti.DlTtiIgnoresStorageBeyondCounts | nfapi/open-nFAPI/fapi/src/nr_fapi_p7_utils.c:168-213 | PDUs stored past nPDUs take no part in the comparison |
| FapiDlTti.CopyUlDciRequest | nfapi/open-nFAPI/fapi/src/nr_fapi_p7_utils.c:1493-1505 | the copy of an UL_DCI.request keeps numPdus PDUs |
| FapiDlTti.UlDciEqIffCopiesEqual | nfapi/open-nFAPI/fapi/src/nr_fapi_p7_utils.c:502-523 | eq_ul_dci_request holds exactly when the copies coincide |
| FapiDlTti.UlDciCopyThenEq | nfapi/open-nFAPI/fapi/src/nr_fapi_p7_utils.c:1484-1505 | an UL_DCI.request compares equal to its copy |
| FapiUlTti.UlBeamformingEqIffCopiesEqual | nfapi/open-nFAPI/fapi/src/nr_fapi_p7_utils.c:215-228 | two UL beamforming blocks compare equal exactly when their copies coincide |
| FapiUlTti.CopyUlBeamformingIdempotent | nfapi/open-nFAPI/fapi/src/nr_fapi_p7_utils.c:1203-1217 | copying a copied UL beamforming block changes nothing |
| FapiUlTti.PlainUlEqIffCopiesEqual | nfapi/open-nFAPI/fapi/src/nr_fapi_p7_utils.c:230-240 | two PRACH or PUCCH PDUs compare equal exactly when their copies coincide |
| FapiUlTti.CbPresenceBytes | nfapi/open-nFAPI/fapi/src/nr_fapi_p7_utils.c:286 | the PUSCH data section compares ceil(num_cb / 8) bytes of cb_present_and_position |
| FapiUlTti.CopyPusch | nfapi/open-nFAPI/fapi/src/nr_fapi_p7_utils.c:1230-1320 | the PUSCH copy keeps pdu_bit_map, and leaves a section whose bit is clear as in a zeroed destination |
| FapiUlTti.PuschEqIffCopiesEqual | nfapi/open-nFAPI/fapi/src/nr_fapi_p7_utils.c:242-332 | two PUSCH PDUs compare equal exactly when their copies coincide |
| FapiUlTti.CopyPuschIdempotent | nfapi/open-nFAPI/fapi/src/nr_fapi_p7_utils.c:1230-1320 | copying a copied PUSCH PDU changes nothing |
| FapiUlTti.PuschClearedSectionsIgnored | nfapi/open-nFAPI/fapi/src/nr_fapi_p7_utils.c:278-327 | a data, UCI, PTRS or DFT-s-OFDM section whose bit is clear in the first PDU takes no part in the comparison |
| FapiUlTti.PuschSetDataSectionCompared | nfapi/open-nFAPI/fapi/src/nr_fapi_p7_utils.c:278-289 | with the data bit set, PDUs that differ in the data section compare unequal |
| FapiUlTti.SrsSymbolCount | nfapi/open-nFAPI/fapi/src/nr_fapi_p7_utils.c:439 | the per-symbol count 1 << num_symbols handed on as an 8-bit value |
| FapiUlTti.SrsEqIffCopiesEqual | nfapi/open-nFAPI/fapi/src/nr_fapi_p7_utils.c:370-441 | two SRS PDUs compare equal exactly when their copies coincide |
| FapiUlTti.CopySrsIdempotent | nfapi/open-nFAPI/fapi/src/nr_fapi_p7_utils.c:1357-1425 | copying a copied SRS PDU changes nothing |
| FapiUlTti.CopyUlPdu | nfapi/open-nFAPI/fapi/src/nr_fapi_p7_utils.c:1427-1473 | the copy of an UL_TTI PDU stops the program exactly on an unknown type, and keeps the type and size |
| FapiUlTti.UlPduEqIffCopiesEqual | nfapi/open-nFAPI/fapi/src/nr_fapi_p7_utils.c:455-482 | two PDUs compare equal exactly when the first has a known type and the copies coincide |
| FapiUlTti.CopyUlPduIdempotent | nfapi/open-nFAPI/fapi/src/nr_fapi_p7_utils.c:1427-1473 | copying a copied PDU changes nothing |
| FapiUlTti.CopyUlTtiRequest | nfapi/open-nFAPI/fapi/src/nr_fapi_p7_utils.c:1427-1473 | the copy of an UL_TTI.request stops the program exactly when a PDU has an unknown type, and otherwise keeps n_pdus PDUs and n_group groups |
| FapiUlTti.UlTtiEqIffCopiesEqual | nfapi/open-nFAPI/fapi/src/nr_fapi_p7_utils.c:443-490 | eq_ul_tti_request holds exactly when both messages copy successfully to the same message |
| FapiUlTti.CopyUlTtiIdempotent | nfapi/open-nFAPI/fapi/src/nr_fapi_p7_utils.c:1427-1473 | copying a copied UL_TTI.request changes nothing |
| FapiUlTti.UlTtiCopyThenEq | nfapi/open-nFAPI/fapi/src/nr_fapi_p7_utils.c:1427-1473 | a message compares equal to its copy, in either order |
| FapiUlTti.UlTtiUnknownType | nfapi/open-nFAPI/fapi/src/nr_fapi_p7_utils.c:479-481 | a PDU of unknown type makes the message unequal to every message, and its copy stops the program |
| FapiDataMessages.SlotIndicationEqIsEquality | nfapi/open-nFAPI/fapi/src/nr_fapi_p7_utils.c:492-500 | every member of the slot indication is compared, so the comparison is plain equality and the copy is the identity |
| FapiDataMessages.ValueWords | nfapi/open-nFAPI/fapi/src/nr_fapi_p7_utils.c:1524 | the words allocated for a pointer TLV hold its length in bytes with less than one word to spare |
| FapiDataMessages.CopyTlv | nfapi/open-nFAPI/fapi/src/nr_fapi_p7_utils.c:1517-1530 | a TLV copy succeeds exactly for tags 0 and 1, allocates ceil(length / 4) words for tag 1, and keeps tag and length |
| FapiDataMessages.LastWordBytes | nfapi/open-nFAPI/fapi/src/nr_fapi_p7_utils.c:1524-1525 | the partial last word of a pointer TLV holds length mod 4 payload bytes |
| FapiDataMessages.TlvCopyThenEqIffPaddingClear | nfapi/open-nFAPI/fapi/src/nr_fapi_p7_utils.c:525-553 | a TLV compares equal to its own copy exactly when its padding bytes past length are zero, because memcpy copies only length bytes while the comparison reads whole words |
| FapiDataMessages.TlvCopyPaddingExample | nfapi/open-nFAPI/fapi/src/nr_fapi_p7_utils.c:1524-1525 | a one-byte pointer TLV with a padding byte set differs from its own copy |
| FapiDataMessages.CopyTxPdu | nfapi/open-nFAPI/fapi/src/nr_fapi_p7_utils.c:1507-1532 | the PDU copy keeps num_TLV and copies that many TLVs |
| FapiDataMessages.CopyTxDataRequest | nfapi/open-nFAPI/fapi/src/nr_fapi_p7_utils.c:1534-1545 | the TX_DATA.request copy stops the program exactly when a counted TLV has a tag other than 0 or 1, and otherwise keeps Number_of_PDUs PDUs |
| FapiDataMessages.TxDataCopyThenEq | nfapi/open-nFAPI/fapi/src/nr_fapi_p7_utils.c:555-567 | a TX_DATA.request compares equal to its copy when no pointer TLV has stray padding bytes |
| FapiDataMessages.TxDataUnsupportedTag | nfapi/open-nFAPI/fapi/src/nr_fapi_p7_utils.c:1527-1529 | a counted TLV with an unsupported tag makes the copy stop the program, and the comparison then looks only at its tag and length |
| FapiDataMessages.TlvSize | nfapi/open-nFAPI/fapi/src/nr_fapi_p7_utils.c:1562-1567 | the bytes counted for a TLV cover its tag, its length and at least its payload |
| FapiDataMessages.TlvSizeMatchesCopy | nfapi/open-nFAPI/fapi/src/nr_fapi_p7_utils.c:1562-1567 | the bytes counted for a pointer TLV are exactly the words its copy allocates |
| FapiDataMessages.GetTxDataRequestSize | nfapi/open-nFAPI/fapi/src/nr_fapi_p7_utils.c:1547-1571 | the loops of get_tx_data_request_size compute the header, per-PDU and per-TLV sizes of the reference definition |
| FapiDataMessages.GetTxPduSize | nfapi/open-nFAPI/fapi/src/nr_fapi_p7_utils.c:1555-1568 | one PDU's members and its TLVs, each value rounded up to whole words |
| FapiDataMessages.CopyRxDataIndication | nfapi/open-nFAPI/fapi/src/nr_fapi_p7_utils.c:1586-1598 | the RX_DATA.indication copy keeps number_of_pdus PDUs, each payload allocated with exactly pdu_length bytes |
| FapiDataMessages.RxDataEqIffCopiesEqual | nfapi/open-nFAPI/fapi/src/nr_fapi_p7_utils.c:569-595 | two RX_DATA.indications compare equal exactly when their copies coincide |
| FapiDataMessages.RxDataCopyThenEq | nfapi/open-nFAPI/fapi/src/nr_fapi_p7_utils.c:1573-1598 | an RX_DATA.indication compares equal to its copy |
| FapiDataMessages.RxPdusSizeClosedForm | nfapi/open-nFAPI/fapi/src/nr_fapi_p7_utils.c:1600-1619 | the size is the fixed members of every PDU plus one byte per payload byte |
| FapiDataMessages.GetRxDataIndicationSize | nfapi/open-nFAPI/fapi/src/nr_fapi_p7_utils.c:1600-1619 | the loop of get_rx_data_indication_size computes the reference size |
| FapiDataMessages.CbCrcBytes | nfapi/open-nFAPI/fapi/src/nr_fapi_p7_utils.c:604-608 | num_cb / 8 + 1 status bytes cover a bit for every code block |
| FapiDataMessages.CopyCrc | nfapi/open-nFAPI/fapi/src/nr_fapi_p7_utils.c:1621-1638 | the status array is allocated with num_cb / 8 + 1 bytes only when there are code blocks |
| FapiDataMessages.CopyCrcIndication | nfapi/open-nFAPI/fapi/src/nr_fapi_p7_utils.c:1640-1652 | the CRC.indication copy keeps number_crcs entries |
| FapiDataMessages.CrcIndicationEqIffCopiesEqual | nfapi/open-nFAPI/fapi/src/nr_fapi_p7_utils.c:597-626 | two CRC.indications compare equal exactly when their copies coincide |
| FapiDataMessages.CrcIndicationCopyThenEq | nfapi/open-nFAPI/fapi/src/nr_fapi_p7_utils.c:1621-1652 | a CRC.indication compares equal to its copy |
| FapiDataMessages.CrcStatusIgnoredWithoutCodeBlocks | nfapi/open-nFAPI/fapi/src/nr_fapi_p7_utils.c:604-608 | with no code blocks the status bytes take no part in the comparison |
| FapiDataMessages.CrcSizeMatchesCopy | nfapi/open-nFAPI/fapi/src/nr_fapi_p7_utils.c:1654-1676 | the bytes counted for one CRC past its fixed members are those its copy allocates |
| FapiDataMessages.GetCrcIndicationSize | nfapi/open-nFAPI/fapi/src/nr_fapi_p7_utils.c:1654-1676 | the loop of get_crc_indication_size computes the reference size |
| FapiIndications.PayloadBytes | nfapi/open-nFAPI/fapi/src/nr_fapi_p7_utils.c:638 | bit_len / 8 + 1 payload bytes cover every bit of a report, with less than one spare byte |
| FapiIndications.EqUci | nfapi/open-nFAPI/fapi/src/nr_fapi_p7_utils.c:758-777 | a mismatch of PDU type or size answers false; with matching headers an unknown type stops the program |
| FapiIndications.ScanFatalIff | nfapi/open-nFAPI/fapi/src/nr_fapi_p7_utils.c:779-790 | the comparison of the UCI lists stops the program exactly when a pair of unknown type follows a run of equal pairs |
| FapiIndications.ScanFatalWitness | nfapi/open-nFAPI/fapi/src/nr_fapi_p7_utils.c:786-788 | a comparison that stops the program names the pair it stopped at |
| FapiIndications.ScanFatalAt | nfapi/open-nFAPI/fapi/src/nr_fapi_p7_utils.c:786-788 | an unknown type after a run of equal pairs stops the comparison |
| FapiIndications.ScanTrueIff | nfapi/open-nFAPI/fapi/src/nr_fapi_p7_utils.c:786-788 | the comparison of the lists answers true exactly when every pair compares equal |
| FapiIndications.CopyReport | nfapi/open-nFAPI/fapi/src/nr_fapi_p7_utils.c:1684-1734 | the copy of a bit-packed report allocates and copies bit_len / 8 + 1 payload bytes |
| FapiIndications.CopyHarq01 | nfapi/open-nFAPI/fapi/src/nr_fapi_p7_utils.c:1694-1701 | the copy of a format 0/1 HARQ report keeps num_harq values |
| FapiIndications.CopyPusch | nfapi/open-nFAPI/fapi/src/nr_fapi_p7_utils.c:1736-1758 | the copy of a PUSCH UCI keeps the bitmap and copies only the reports it selects |
| FapiIndications.CopyPucch01 | nfapi/open-nFAPI/fapi/src/nr_fapi_p7_utils.c:1760-1778 | the copy of a PUCCH format 0/1 UCI keeps the bitmap |
| FapiIndications.CopyPucch234 | nfapi/open-nFAPI/fapi/src/nr_fapi_p7_utils.c:1780-1805 | the copy of a PUCCH format 2/3/4 UCI keeps the bitmap |
| FapiIndications.CopyUci | nfapi/open-nFAPI/fapi/src/nr_fapi_p7_utils.c:1807-1825 | the copy of one UCI stops the program exactly on an unknown type, and keeps type and size |
| FapiIndications.CopyUciIndication | nfapi/open-nFAPI/fapi/src/nr_fapi_p7_utils.c:1827-1838 | the copy of a UCI.indication stops the program exactly when a PDU type is unknown, and keeps num_ucis PDUs |
| FapiIndications.ReportEqIffCopiesEqual | nfapi/open-nFAPI/fapi/src/nr_fapi_p7_utils.c:635-682 | two bit-packed reports compare equal exactly when their copies coincide |
| FapiIndications.PuschEqIffCopiesEqual | nfapi/open-nFAPI/fapi/src/nr_fapi_p7_utils.c:684-707 | two PUSCH UCIs compare equal exactly when their copies coincide |
| FapiIndications.Pucch01EqIffCopiesEqual | nfapi/open-nFAPI/fapi/src/nr_fapi_p7_utils.c:709-728 | two PUCCH format 0/1 UCIs compare equal exactly when their copies coincide |
| FapiIndications.Pucch234EqIffCopiesEqual | nfapi/open-nFAPI/fapi/src/nr_fapi_p7_utils.c:730-756 | two PUCCH format 2/3/4 UCIs compare equal exactly when their copies coincide |
| FapiIndications.UciEqIffCopiesEqual | nfapi/open-nFAPI/fapi/src/nr_fapi_p7_utils.c:758-777 | for a PDU of known type the comparison never stops the program and answers true exactly when the copies coincide |
| FapiIndications.UciIndicationEqIffCopiesEqual | nfapi/open-nFAPI/fapi/src/nr_fapi_p7_utils.c:779-790 | for a message with known PDU types the comparison never stops the program and answers true exactly when the copies coincide |
| FapiIndications.CopyUciIdempotent | nfapi/open-nFAPI/fapi/src/nr_fapi_p7_utils.c:1807-1825 | copying a copied UCI changes nothing |
| FapiIndications.CopyUciIndicationIdempotent | nfapi/open-nFAPI/fapi/src/nr_fapi_p7_utils.c:1827-1838 | copying a copied UCI.indication changes nothing |
| FapiIndications.UciIndicationCopyThenEq | nfapi/open-nFAPI/fapi/src/nr_fapi_p7_utils.c:1827-1838 | a message with known PDU types compares equal to its copy |
| FapiIndications.UciIndicationUnknownTypeFatal | nfapi/open-nFAPI/fapi/src/nr_fapi_p7_utils.c:773 | a message with an unknown PDU type stops the program both when compared with itself and when copied |
| FapiIndications.UciIndicationSize | nfapi/open-nFAPI/fapi/src/nr_fapi_p7_utils.c:1840-1907 | the size stops the program exactly when a PDU type is unknown |
| FapiIndications.UciEntrySizeMatchesCopy | nfapi/open-nFAPI/fapi/src/nr_fapi_p7_utils.c:1840-1907 | the payload bytes counted for a PDU are exactly those its copy allocates |
| FapiIndications.UciEntriesSizeOfCopies | nfapi/open-nFAPI/fapi/src/nr_fapi_p7_utils.c:1840-1907 | copying the PDUs keeps their counted size |
| FapiIndications.UciIndicationSizeOfCopy | nfapi/open-nFAPI/fapi/src/nr_fapi_p7_utils.c:1840-1907 | a message and its copy have the same size |
| FapiIndications.GetUciIndicationSize | nfapi/open-nFAPI/fapi/src/nr_fapi_p7_utils.c:1840-1907 | the loop of get_uci_indication_size computes the reference size |
| FapiIndications.GetUciEntrySize | nfapi/open-nFAPI/fapi/src/nr_fapi_p7_utils.c:1852-1900 | one PDU's type and size members, its body, and bit_len / 8 + 1 bytes per present report; an unknown type stops the program |
| FapiIndications.CopyReportTlv | nfapi/open-nFAPI/fapi/src/nr_fapi_p7_utils.c:1909-1916 | the copy of an SRS report TLV allocates ceil(length / 4) words |
| FapiIndications.CopySrsIndication | nfapi/open-nFAPI/fapi/src/nr_fapi_p7_utils.c:1929-1941 | the copy of an SRS.indication keeps number_of_pdus PDUs |
| FapiIndications.SrsIndicationEqIffCopiesEqual | nfapi/open-nFAPI/fapi/src/nr_fapi_p7_utils.c:792-826 | two SRS.indications compare equal exactly when their copies coincide |
| FapiIndications.SrsIndicationCopyThenEq | nfapi/open-nFAPI/fapi/src/nr_fapi_p7_utils.c:1909-1941 | an SRS.indication compares equal to its copy |
| FapiIndications.SrsIndicationSizeProperties | nfapi/open-nFAPI/fapi/src/nr_fapi_p7_utils.c:1943-1957 | the size ignores the PDUs' contents, grows by one list entry per PDU and is kept by a copy |
| FapiIndications.CopyPrachPdu | nfapi/open-nFAPI/fapi/src/nr_fapi_p7_utils.c:1959-1975 | the copy of a RACH PDU keeps num_preamble preambles |
| FapiIndications.CopyRachIndication | nfapi/open-nFAPI/fapi/src/nr_fapi_p7_utils.c:1977-1988 | the copy of a RACH.indication keeps number_of_pdus PDUs |
| FapiIndications.RachIndicationEqIffCopiesEqual | nfapi/open-nFAPI/fapi/src/nr_fapi_p7_utils.c:828-858 | two RACH.indications compare equal exactly when their copies coincide |
| FapiIndications.RachIndicationCopyThenEq | nfapi/open-nFAPI/fapi/src/nr_fapi_p7_utils.c:1959-1988 | a RACH.indication compares equal to its copy |
| FapiIndications.RachIndicationSizeProperties | nfapi/open-nFAPI/fapi/src/nr_fapi_p7_utils.c:1990-2003 | the size ignores the PDUs' contents, grows by one list entry per PDU and is kept by a copy |
| FapiDlTtiCodec.PullBeamforming | nfapi/open-nFAPI/fapi/src/nr_fapi_p7.c:402-419 | whatever unpack_nr_tx_beamforming_pdu accepts is a well-shaped beamforming block |
| FapiDlTtiCodec.PullBeamformingPacked | nfapi/open-nFAPI/fapi/src/nr_fapi_p7.c:167-419 | unpacking a packed beamforming block gives its copy, the PRGs and beam indices cut to their counts, and leaves the bytes after it |
| FapiDlTtiCodec.PullDciPayload | nfapi/open-nFAPI/fapi/src/nr_fapi_p7.c:451-452 | a DCI read after its beamforming block carries the payload bytes its bit count announces, at most the array size |
| FapiDlTtiCodec.RetainedDciAgrees | nfapi/open-nFAPI/fapi/src/nr_fapi_p7.c:240-242 | what the receiver holds of a DCI agrees with the sent DCI up to the end of the payload on the wire and is zero after it |
| FapiDlTtiCodec.PullDciPacked | nfapi/open-nFAPI/fapi/src/nr_fapi_p7.c:421-457 | unpacking a packed DCI gives its retained form and the bytes after it |
| FapiDlTtiCodec.PullDcisPacked | nfapi/open-nFAPI/fapi/src/nr_fapi_p7.c:421-457 | unpacking numDlDci packed DCIs gives their retained forms in order |
| FapiDlTtiCodec.PullPdcch | nfapi/open-nFAPI/fapi/src/nr_fapi_p7.c:421-457 | whatever unpack_dl_tti_pdcch_pdu_rel15_value accepts is a PDCCH PDU that can be packed again |
| FapiDlTtiCodec.PullPdcchPacked | nfapi/open-nFAPI/fapi/src/nr_fapi_p7.c:210-457 | unpacking a packed PDCCH PDU gives its retained form |
| FapiDlTtiCodec.PullPdsch | nfapi/open-nFAPI/fapi/src/nr_fapi_p7.c:459-520 | whatever unpack_dl_tti_pdsch_pdu_rel15_value accepts is a well-formed PDSCH PDU |
| FapiDlTtiCodec.RetainedPdsch | nfapi/open-nFAPI/fapi/src/nr_fapi_p7.c:489-513 | the receiver's PDSCH keeps the groups whose pduBitmap bit is set, the others at zero, and stays well formed |
| FapiDlTtiCodec.PullPdschPacked | nfapi/open-nFAPI/fapi/src/nr_fapi_p7.c:249-520 | unpacking a packed PDSCH PDU gives its retained form: PTRS fields only with bit 0 and CBG fields only with bit 1 of pduBitmap |
| FapiDlTtiCodec.PullCsiRs | nfapi/open-nFAPI/fapi/src/nr_fapi_p7.c:522-543 | whatever unpack_dl_tti_csi_rs_pdu_rel15_value accepts is a well-formed CSI-RS PDU |
| FapiDlTtiCodec.PullCsiRsPacked | nfapi/open-nFAPI/fapi/src/nr_fapi_p7.c:188-543 | unpacking a packed CSI-RS PDU gives its copy |
| FapiDlTtiCodec.BchPayloadBytes | nfapi/open-nFAPI/fapi/src/nr_fapi_p7.c:320-322 | the BCH payload goes out as four bytes, each fitting in 8 bits |
| FapiDlTtiCodec.BchPayloadRoundTrip | nfapi/open-nFAPI/fapi/src/nr_fapi_p7.c:554-559 | the rebuilt BCH payload is the sent one modulo 2^24, and equals it exactly when it is below 2^24 |
| FapiDlTtiCodec.PullSsb | nfapi/open-nFAPI/fapi/src/nr_fapi_p7.c:545-566 | whatever unpack_dl_tti_ssb_pdu_rel15_value accepts is a well-formed SSB PDU |
| FapiDlTtiCodec.PullSsbPacked | nfapi/open-nFAPI/fapi/src/nr_fapi_p7.c:312-566 | unpacking a packed SSB PDU gives its retained form: the payload reduced to 24 bits and the RSRP value zero |
| FapiDlTtiRequestCodec.PackedPduSize | nfapi/open-nFAPI/fapi/src/nr_fapi_p7.c:368-371 | the PDUSize the packer records fits in 16 bits |
| FapiDlTtiRequestCodec.PackedPduSizeIsLength | nfapi/open-nFAPI/fapi/src/nr_fapi_p7.c:332-373 | a packed PDU takes four header bytes plus its body, and its PDUSize is that byte count modulo 2^16 |
| FapiDlTtiRequestCodec.SizedPdu | nfapi/open-nFAPI/fapi/src/nr_fapi_p7.c:371-372 | rewriting PDUSize keeps the PDU type and leaves a PDU that can be packed |
| FapiDlTtiRequestCodec.PullPdu | nfapi/open-nFAPI/fapi/src/nr_fapi_p7.c:568-603 | whatever unpack_dl_tti_request_body_value accepts can be packed again, an unknown type included |
| FapiDlTtiRequestCodec.RetainedPdu | nfapi/open-nFAPI/fapi/src/nr_fapi_p7.c:568-603 | what the receiver holds for a packed PDU has its type and the packed size |
| FapiDlTtiRequestCodec.PullPduPacked | nfapi/open-nFAPI/fapi/src/nr_fapi_p7.c:332-603 | a packed PDU of any type unpacks to what the receiver should hold, and the bytes after it are left alone |
| FapiDlTtiRequestCodec.PullPdusPacked | nfapi/open-nFAPI/fapi/src/nr_fapi_p7.c:614-617 | nPDUs packed PDUs unpack in order to what the receiver should hold |
| FapiDlTtiRequestCodec.GroupSizes | nfapi/open-nFAPI/fapi/src/nr_fapi_p7.c:391 | the UE count of each group is the length of its index list |
| FapiDlTtiRequestCodec.PullGroups | nfapi/open-nFAPI/fapi/src/nr_fapi_p7.c:619-628 | the unpacker's group loop yields nGroup groups of one-byte indices |
| FapiDlTtiRequestCodec.PullGroupsPacked | nfapi/open-nFAPI/fapi/src/nr_fapi_p7.c:619-628 | groups whose indices are written as one byte each unpack to themselves |
| FapiDlTtiRequestCodec.RequestGroups | nfapi/open-nFAPI/fapi/src/nr_fapi_p7.c:390-398 | the indices each group lists, cut to its nUe count |
| FapiDlTtiRequestCodec.PullRequest | nfapi/open-nFAPI/fapi/src/nr_fapi_p7.c:605-631 | whatever unpack_dl_tti_request accepts is a request that can be packed again |
| FapiDlTtiRequestCodec.RetainedRequest | nfapi/open-nFAPI/fapi/src/nr_fapi_p7.c:605-631 | what the receiver holds for a packed request keeps the counted UEs of each group |
| FapiDlTtiRequestCodec.PullRequestHeader | nfapi/open-nFAPI/fapi/src/nr_fapi_p7.c:609-611 | SFN, Slot, nPDUs and nGroup read back as written, whatever the width of the indices |
| FapiDlTtiRequestCodec.PullRequestPacked | nfapi/open-nFAPI/fapi/src/nr_fapi_p7.c:605-631 | with the indices written as one byte, a request whose values fit unpacks to what the receiver should hold and leaves the bytes after it |
| FapiDlTtiRequestCodec.AsWrittenLosesPduIdx | nfapi/open-nFAPI/fapi/src/nr_fapi_p7.c:394 | with the index written as four bytes and read as one, a request listing PDU 5 in one group comes back listing PDU 0 |
| FapiDlTtiRequestCodec.GroupsAsWritten | nfapi/open-nFAPI/fapi/src/nr_fapi_p7.c:619-628 | the group count of the as-written bytes reads back right but the index does not, and three of its bytes are left over |
| FapiDlTtiRequestCodec.CorrectedKeepsPduIdx | nfapi/open-nFAPI/fapi/src/nr_fapi_p7.c:624 | with the index written as one byte, the same one-group request comes back listing PDU 5 |
| FapiP7Message.PackHeader | nfapi/open-nFAPI/fapi/src/nr_fapi_p7.c:81-101 | the header takes eight bytes in front of the body |
| FapiP7Message.PullHeader | nfapi/open-nFAPI/fapi/src/nr_fapi_p7.c:125-130 | the header can be read exactly when eight bytes are there |
| FapiP7Message.PullHeaderPacked | nfapi/open-nFAPI/fapi/src/nr_fapi_p7.c:81-101 | a written header reads back as the message id and length, leaving the body |
| FapiP7Message.SentRequest | nfapi/open-nFAPI/fapi/src/nr_fapi_p7.c:97 | after packing, the caller's message holds the body length as message_length and each counted PDU holds its packed size |
| FapiP7Message.PackMessage | nfapi/open-nFAPI/fapi/src/nr_fapi_p7.c:57-104 | null pointers give -1; otherwise packing succeeds exactly for a DL_TTI.request whose header and body fit the buffer, writing [1, 0, id, length] and the body and returning the body length |
| FapiP7Message.UnpackMessage | nfapi/open-nFAPI/fapi/src/nr_fapi_p7.c:106-165 | a buffer shorter than the header, or an output buffer smaller than the message header structure, stops the program, and nothing else does; a success means a DL_TTI.request whose length field fits the buffer, with room at the caller, and keeps id and length |
| FapiP7Message.UnpackRefusesLongLength | nfapi/open-nFAPI/fapi/src/nr_fapi_p7.c:131-134 | a length field larger than the buffer gives -1 |
| FapiP7Message.UnpackRefusesOtherTypes | nfapi/open-nFAPI/fapi/src/nr_fapi_p7.c:143-163 | a message of any other type gives -1 |
| FapiP7Message.RetainedOfSent | nfapi/open-nFAPI/fapi/src/nr_fapi_p7.c:368-372 | writing the packed sizes back changes nothing the receiver holds |
| FapiP7Message.MessageRoundTrip | nfapi/open-nFAPI/fapi/src/nr_fapi_p7.c:57-165 | a DL_TTI.request whose values fit, packed into a large enough buffer and unpacked into an output buffer that holds the message header, unpacks from the bytes written to the message as the packer left it |
| TddFrame.SlotInPeriod | openair2/LAYER2/NR_MAC_COMMON/nr_mac_common_tdd.c:219-220 | the place of a slot in its TDD period is below the period length, so every slot has a bitmap entry |
| TddFrame.ClassificationPeriodic | openair2/LAYER2/NR_MAC_COMMON/nr_mac_common_tdd.c:215-252 | whether a slot is UL, DL or mixed repeats with the TDD period |
| TddFrame.FullSlotsOneDirection | openair2/LAYER2/NR_MAC_COMMON/nr_mac_common_tdd.c:215-238 | under TDD a slot that is not mixed is an UL slot exactly when it is not a DL slot |
| TddFrame.CountedIsClassification | openair2/LAYER2/NR_MAC_COMMON/nr_mac_common_tdd.c:215-238 | under TDD a slot counts among the slots carrying DL (UL) symbols exactly when is_dl_slot (is_ul_slot) holds for it |
| TddPatterns.SetTddBmapPeriod | openair2/LAYER2/NR_MAC_gNB/config.c:295-337 | the pattern spans its DL and UL slots plus one mixed slot when it has DL or UL symbols; those bitmap entries become DL, mixed with the pattern's symbol counts, then UL; no other entry changes; each counter grows by the slots carrying that direction |
| TddPatterns.PatternCounts | openair2/LAYER2/NR_MAC_gNB/config.c:309-323 | a laid-out pattern holds as many slots of each kind as the counters were credited with |
| TddPatterns.ConfigTddPatterns | openair2/LAYER2/NR_MAC_gNB/config.c:351-371 | the counters restart from zero, pattern 2 (when present) is laid out right after pattern 1, the entries past both are untouched, and the counters are the two patterns' sums |
| TddPatterns.SecondPatternLaidOut | openair2/LAYER2/NR_MAC_gNB/config.c:360-365 | laying pattern 2 out after pattern 1 leaves pattern 1's entries in place |
| TddPatterns.PatternsCounts | openair2/LAYER2/NR_MAC_gNB/config.c:351-371 | counting the slots the two patterns span gives what the patterns added to the counters |
| TddPatterns.GetFullSlotsPerPeriod | openair2/LAYER2/NR_MAC_gNB/config.c:415-452 | under FDD the slots of the frame, under TDD the number of full UL (DL) entries of the period |
| TddPatterns.CountersMatchBitmap | openair2/LAYER2/NR_MAC_gNB/config.c:397-459 | when the patterns fill the period, the DL and UL counters equal the bitmap's counts, the UL slots of a frame are the periods times the UL count, and the full DL and UL counts are the patterns' slot numbers |
| TddPatterns.UlCandidateIsSourceTest | openair2/LAYER2/NR_MAC_gNB/config.c:385 | the candidate test is is_ul_slot when mixed slots count, and a full UL entry otherwise |
| TddPatterns.GetFirstUlSlot | openair2/LAYER2/NR_MAC_gNB/config.c:379-392 | under TDD the first candidate slot of the period, 0 when there is none or under FDD |
| TddPatterns.UlSlotListSound | openair2/LAYER2/NR_MAC_gNB/config.c:483-487 | the list of UL slot indices holds only candidate slots of the scanned prefix |
| TddPatterns.UlSlotListSorted | openair2/LAYER2/NR_MAC_gNB/config.c:483-487 | the list is strictly increasing |
| TddPatterns.UlSlotListComplete | openair2/LAYER2/NR_MAC_gNB/config.c:483-487 | every candidate slot of the scanned prefix is in the list |
| TddPatterns.UlSlotListAt | openair2/LAYER2/NR_MAC_gNB/config.c:485 | each listed index is a candidate slot of the period |
| TddPatterns.UlSlotOffset | openair2/LAYER2/NR_MAC_gNB/config.c:469-494 | the offset fails exactly when a TDD period has no candidate slot (the source divides by zero) |
| TddPatterns.PeriodOffsetIncreasing | openair2/LAYER2/NR_MAC_gNB/config.c:490-493 | over a sorted list of slots below the period, a larger index gives a later slot |
| TddPatterns.CollectUlSlots | openair2/LAYER2/NR_MAC_gNB/config.c:478-487 | the loop collects the candidate slots of the period in order |
| TddPatterns.GetUlSlotOffset | openair2/LAYER2/NR_MAC_gNB/config.c:469-494 | the loop computes the offset the specification function defines |
| TddPatterns.UlSlotOffsetIsUl | openair2/LAYER2/NR_MAC_gNB/config.c:469-494 | the slot returned is always an UL slot |
| TddPatterns.UlSlotOffsetIncreasing | openair2/LAYER2/NR_MAC_gNB/config.c:489-493 | distinct UE indices get distinct slots, later indices strictly later ones |
| PhyFrameConfig.FillSlotConfig | openair1/SCHED_NR/phy_frame_config_nr.c:56-153 | the symbol loops write one row of 14 symbols that is DL, flexible or UL as the bitmap entry says |
| PhyFrameConfig.SetTddConfig | openair1/SCHED_NR/phy_frame_config_nr.c:56-153 | the configuration fails exactly when some slot's entry cannot be laid out; otherwise one row per slot of the frame, each from its place in the period |
| PhyFrameConfig.CountOfAll | openair1/SCHED_NR/phy_frame_config_nr.c:296-330 | all symbols of a row are v exactly when the count of v is the row length |
| PhyFrameConfig.MixedSymbolCounts | openair1/SCHED_NR/phy_frame_config_nr.c:56-153 | a mixed slot's row holds exactly its DL symbols, its UL symbols and flexible ones for the rest |
| PhyFrameConfig.SlotSelectMeaning | openair1/SCHED_NR/phy_frame_config_nr.c:296-330 | under TDD a slot is UL when every symbol is UL, DL when every symbol is DL, mixed otherwise |
| PhyFrameConfig.SelectAfterConfig | openair1/SCHED_NR/phy_frame_config_nr.c:56-330 | reading back a slot set_tdd_config_nr wrote gives the type of its bitmap entry |
| PhyFrameConfig.GetNextDownlinkSlot | openair1/SCHED_NR/phy_frame_config_nr.c:281-294 | the first slot after the given one, wrapping round the frame, that carries DL; no slot before it does; failure exactly when no slot of the frame carries DL |
| PhyFrameConfig.DistanceStep | openair1/SCHED_NR/phy_frame_config_nr.c:281-294 | the slot the search reaches at step d is the only one at cyclic distance d |
| PhyFrameConfig.AddDedicated | openair1/SCHED_NR/phy_frame_config_nr.c:171-199 | the new entry is appended after all the entries already in the list |
| PhyFrameConfig.SetTddConfigurationDedicated | openair1/SCHED_NR/phy_frame_config_nr.c:217-261 | 0 when every entry is valid and then all are written in order; -1 otherwise, with exactly the entries before the first refused one written |
| PhyFrameConfig.LastNaming | openair1/SCHED_NR/phy_frame_config_nr.c:217-261 | the index found names the slot and no later entry does; none when no entry names it |
| PhyFrameConfig.LastEntryWins | openair1/SCHED_NR/phy_frame_config_nr.c:217-261 | each slot ends up with the value of the last entry naming it and keeps its value when none does |
| PhyFrameConfig.AddedEntryWins | openair1/SCHED_NR/phy_frame_config_nr.c:171-261 | an added entry overrides its own slot and leaves every other slot as before |
| PhyFrameConfig.FreeTddConfigurationDedicated | openair1/SCHED_NR/phy_frame_config_nr.c:370-394 | the dedicated list is emptied and nothing else changes |
| PhyFrameConfig.FreeTddConfiguration | openair1/SCHED_NR/phy_frame_config_nr.c:344-356 | both configurations are dropped and every slot goes back to DL |
| PhyFrameConfig.FreeThenAdd | openair1/SCHED_NR/phy_frame_config_nr.c:171-356 | after a free, adding one dedicated entry changes exactly its slot and every other slot stays DL |
| PhyFrameConfig.AsWrittenSimOverwritesDownlink | openair1/SCHED_NR/phy_frame_config_nr.c:396-440 | with the UL loop as written, mu 1 and a 5 ms period, slot 2 becomes UL though it is one of the 7 DL slots |
| PhyFrameConfig.SimBitmapLayout | openair1/SCHED_NR/phy_frame_config_nr.c:396-440 | with the corrected loop the period starts with its DL slots, ends with its UL slots and is mixed between |
| PhyFrameConfig.SimBitmapCounts | openair1/SCHED_NR/phy_frame_config_nr.c:396-440 | the corrected period holds exactly the requested numbers of DL and UL slots |
| PhyFrameConfig.DoTddConfigSim | openair1/SCHED_NR/phy_frame_config_nr.c:396-440 | the simulator's frame as the code builds it: 10 times 2^mu slots with the simulator's DL and UL counts, the bitmap of the UL loop that starts at num_ul_slots, so each period is DL below slot num_ul_slots and UL from there, and one symbol row per slot |
| PhyFrameConfig.DoTddConfigSimCorrected | openair1/SCHED_NR/phy_frame_config_nr.c:396-440 | the same frame with the UL loop starting num_ul_slots before the period end: the corrected bitmap and one symbol row per slot |
| Codebook.GetK1K2 | openair2/LAYER2/NR_MAC_gNB/config.c:76-104 | defined exactly for 1 to 4 layers; one layer gives (1, 1); k2 is 1 exactly for a single-row panel and 2 otherwise; both are at least 1 |
| Codebook.K1Values | openair2/LAYER2/NR_MAC_gNB/config.c:76-104 | for two layers k1 is 2, 3 or 4; three and four layers share k1, at most the panel width, and share k2 with two layers |
| Codebook.GenerateCoPhasings | openair2/LAYER2/NR_MAC_gNB/config.c:113-186 | one entry per co-phasing value, numbered from 1 onwards, each with the layer count and port count |
| Codebook.PrecodingWeightsGeneration | openair2/LAYER2/NR_MAC_gNB/config.c:113-186 | fails exactly for a layer count outside 1 to 4; otherwise fills one block of co-phasings per beam combination and returns the index past them |
| Codebook.LayerOf | openair2/LAYER2/NR_MAC_gNB/config.c:188-280 | an entry of the codebook belongs to one of the layer blocks |
| Codebook.BlockIsMatrixCount | openair2/LAYER2/NR_MAC_gNB/config.c:188-280 | the generation loop writes as many entries as the sizing loop counted for that layer |
| Codebook.Reorder | openair2/LAYER2/NR_MAC_gNB/config.c:188-280 | the two loop nests multiply the same factors |
| Codebook.InitDlMimoCodebook | openair2/LAYER2/NR_MAC_gNB/config.c:188-280 | fewer than two ports give an empty codebook; otherwise it fails exactly for more than 4 layers or 16 or more ports, and else has one block per layer count up to min(ports, max layers) of the counted size |
| Codebook.LayerOfPrefix | openair2/LAYER2/NR_MAC_gNB/config.c:188-280 | an entry keeps its layer when more blocks follow |
| Codebook.LayerOfBlock | openair2/LAYER2/NR_MAC_gNB/config.c:188-280 | the entries of a layer's block have that layer count |
| Codebook.LayerBlock | openair2/LAYER2/NR_MAC_gNB/config.c:188-280 | writing a layer's block after the earlier blocks extends the generated codebook over that block |
| UeScheduler.Msg3Delta | openair2/LAYER2/NR_MAC_UE/nr_ue_scheduler.c:1548-1565 | defined exactly for numerologies 0 to 3, with a delay between 2 and 6 slots |
| UeScheduler.Msg3DeltaIncreasing | openair2/LAYER2/NR_MAC_UE/nr_ue_scheduler.c:1550-1565 | a higher numerology always waits more slots |
| UeScheduler.AdvanceIsAbsoluteStep | openair2/LAYER2/NR_MAC_UE/nr_ue_scheduler.c:1575-1576 | moving forward by an offset gives a slot within the frame and a frame below 1024, and the absolute slot grows by the offset modulo the SFN cycle |
| UeScheduler.PuschSchedule | openair2/LAYER2/NR_MAC_UE/nr_ue_scheduler.c:1530-1598 | stops the UE exactly when k2 (plus the Msg3 delay) is not beyond the receive-to-transmit delay or the numerology is invalid; returns -1 exactly for a negative k2 of a non-Msg3 grant; otherwise the grant time advanced by k2 (plus the delay) |
| UeScheduler.PuschScheduleInRange | openair2/LAYER2/NR_MAC_UE/nr_ue_scheduler.c:1567-1593 | with a non-negative delay bound an accepted grant is always scheduled, k2 (plus the delay) slots later on the SFN cycle |
| UeScheduler.SrsFrame | openair2/LAYER2/NR_MAC_UE/nr_ue_scheduler.c:1046-1051 | the corrected frame of an aperiodic SRS stays below 1024 |
| UeScheduler.SrsTimeIsAdvance | openair2/LAYER2/NR_MAC_UE/nr_ue_scheduler.c:1046-1051 | the corrected SRS frame and slot are the trigger time advanced by the slot offset, as the PUSCH scheduler advances |
| UeScheduler.AsWrittenSrsFrameSkipsAhead | openair2/LAYER2/NR_MAC_UE/nr_ue_scheduler.c:1051 | as written, a trigger in slot 5 of frame 0 with offset 3 and 20 slots per frame lands in frame 5 instead of frame 0 |
| UeScheduler.AsWrittenSrsFrameOutOfRange | openair2/LAYER2/NR_MAC_UE/nr_ue_scheduler.c:1051 | as written, a trigger in frame 1023 gives frame 1024, outside the SFN range |
| UeScheduler.AperiodicSrsTime | openair2/LAYER2/NR_MAC_UE/nr_ue_scheduler.c:1040-1052 | the code's aperiodic SRS time: stops the UE exactly when the offset is not beyond the receive-to-transmit delay; schedules exactly when the target slot is an UL slot, in the slot (slot + offset) mod N of the frame the code computes |
| UeScheduler.CorrectedSrsTime | openair2/LAYER2/NR_MAC_UE/nr_ue_scheduler.c:1040-1052 | the same checks with the corrected frame: Fatal exactly when the offset is not beyond the delay, scheduled exactly in an UL slot, and the frame stays below 1024 |
| UeScheduler.AperiodicSrsTimeDiffersInFrame | openair2/LAYER2/NR_MAC_UE/nr_ue_scheduler.c:1040-1052 | the code's and the corrected SRS time stop, skip and schedule for the same inputs and in the same slot; only the frame differs |
| UeScheduler.AsWrittenSrsTimeSkipsAhead | openair2/LAYER2/NR_MAC_UE/nr_ue_scheduler.c:1051 | with 20 slots per frame and slot 8 an UL slot, a trigger in slot 5 of frame 0 with offset 3 is scheduled in frame 5 by the code and in frame 0 when corrected |
| UeScheduler.SrsSlot | openair2/LAYER2/NR_MAC_UE/nr_ue_scheduler.c:1046 | the SRS slot lies within the frame |
| UeScheduler.CorrectedSrsTimeIsAdvance | openair2/LAYER2/NR_MAC_UE/nr_ue_scheduler.c:1040-1052 | with the corrected frame, a scheduled aperiodic SRS is the trigger time advanced by the offset, in an UL slot, offset slots later on the SFN cycle |
| UeScheduler.LeastCoverFrom | openair2/LAYER2/NR_MAC_UE/nr_ue_scheduler.c:1485-1521 | the reference search returns an index of the table at or after the start |
| UeScheduler.LeastCoverIs | openair2/LAYER2/NR_MAC_UE/nr_ue_scheduler.c:1485-1521 | an index whose level covers the value (or the last one) with all earlier levels below it is the reference answer |
| UeScheduler.LocateBsrIndex | openair2/LAYER2/NR_MAC_UE/nr_ue_scheduler.c:1485-1521 | 0 for an empty buffer; on an ascending table whose first level does not exceed the value, the first index whose level covers the buffer size, the last when none does |
| UeScheduler.ConfigureCsiRbs | openair2/LAYER2/NR_MAC_UE/nr_ue_scheduler.c:1919-1933 | the corrected band starts at the later of its start and the BWP start, ends inside the BWP, keeps its width unless clipped at the BWP end, and is refused exactly when fewer than 24 RBs remain |
| UeScheduler.CsiRbsAgreeInsideBwp | openair2/LAYER2/NR_MAC_UE/nr_ue_scheduler.c:1919-1933 | the code's 32-bit arithmetic and the corrected band agree whenever the band starts no later than the BWP end |
| UeScheduler.AsWrittenCsiRbsAcceptsOutsideBand | openair2/LAYER2/NR_MAC_UE/nr_ue_scheduler.c:1928-1931 | as written, a 24-RB band at RB 100 is accepted unclipped for a 24-RB BWP at RB 0, which it lies wholly outside |
| UeScheduler.LockGetUlConfig | openair2/LAYER2/NR_MAC_UE/nr_ue_scheduler.c:92-121 | only the requested slot's list can change; nothing is given for a non-UL slot; a list of another occasion is reset first; a PDU is given exactly when the list has room, appended last with the requested type |
| UeScheduler.LockGetKeepsCapacity | openair2/LAYER2/NR_MAC_UE/nr_ue_scheduler.c:92-121 | adding PDUs never puts more than the capacity in a list |
| UeScheduler.LockGetTwiceKeepsOrder | openair2/LAYER2/NR_MAC_UE/nr_ue_scheduler.c:92-121 | two PDUs requested for the same occasion are listed in request order |
| UeScheduler.RemoveUlConfigLastItem | openair2/LAYER2/NR_MAC_UE/nr_ue_scheduler.c:268-271 | the corrected removal drops exactly the last PDU of the slot's list and changes no other slot |
| UeScheduler.AddThenRemoveRestores | openair2/LAYER2/NR_MAC_UE/nr_ue_scheduler.c:92-121 | adding a PDU and then removing it leaves the list as it was after the reset for the occasion |
| UeScheduler.AsWrittenRemoveKeepsFailedPdu | openair2/LAYER2/NR_MAC_UE/nr_ue_scheduler.c:268-271 | as written, the removal after a failed configuration keeps the failed PDU as the last entry |
| UeScheduler.ReleaseUlConfig | openair2/LAYER2/NR_MAC_UE/nr_ue_scheduler.c:273-278 | with the clear flag the slot's list is emptied, otherwise kept; its occasion and every other slot are unchanged |
| UeScheduler.ClearUlConfigRequest | openair2/LAYER2/NR_MAC_UE/nr_ue_scheduler.c:81-90 | the lists of the frame's slots are emptied with their occasions kept; other entries are unchanged |
| UeScheduler.ClearedSlotAccepts | openair2/LAYER2/NR_MAC_UE/nr_ue_scheduler.c:81-121 | after clearing the frame any UL slot has room for a PDU again |
| UeScheduler.IsPrachFrame | openair2/LAYER2/NR_MAC_UE/nr_ue_scheduler.c:2079-2094 | a PRACH frame is one whose SFN modulo the configuration period is the offset and, with several association periods, which falls in the selected period |
| UeScheduler.PrachFramePeriodic | openair2/LAYER2/NR_MAC_UE/nr_ue_scheduler.c:2079-2094 | PRACH frames repeat every configuration period times the number of association periods |
| UeScheduler.LcidBufferIndex | openair2/LAYER2/NR_MAC_UE/nr_ue_scheduler.c:135-139 | defined exactly for LCIDs 1 to the maximum, mapped to slot LCID - 1 |
| UeScheduler.CountSamePriority | openair2/LAYER2/NR_MAC_UE/nr_ue_scheduler.c:2462-2474 | the number of channels from the start to the end of the active list with the start channel's priority, at least 1 (the start itself); 0 when the start is past the list |
| MacTables.PackValueSnoc | openair2/LAYER2/NR_MAC_UE/mac_tables.c:415-421 | appending an entry to the packed list adds it at weight 2^n |
| MacTables.PackBits | openair2/LAYER2/NR_MAC_UE/mac_tables.c:415-421 | the loop returns entry i shifted left by i, summed over the list |
| MacTables.UnpackBits | openair2/LAYER2/NR_MAC_UE/mac_tables.c:415-421 | the inverse view: one 0/1 flag per low bit of the value |
| MacTables.PackValueBits | openair2/LAYER2/NR_MAC_UE/mac_tables.c:415-421 | packing 0/1 flags gives a value below 2^n whose bit i is flag i |
| MacTables.PackUnpack | openair2/LAYER2/NR_MAC_UE/mac_tables.c:415-421 | unpacking the packed flags gives the flags back |
| MacTables.BitsDetermineValue | openair2/LAYER2/NR_MAC_UE/mac_tables.c:415-421 | two values below 2^n with the same low n bits are equal, so a bitmap is fixed by its ports |
| MacTables.OneHotBit | openair2/LAYER2/NR_MAC_UE/mac_tables.c:541 | 1 shifted by p sets bit p and no other |
| MacTables.DlPortRow | openair2/LAYER2/NR_MAC_UE/mac_tables.c:423-468 | a row of the DL antenna-port table has the CDM-group entry, one 0/1 flag per port and, for two-symbol DMRS, the front-loaded symbols |
| MacTables.SetAntennaPortParameters | openair2/LAYER2/NR_MAC_UE/mac_tables.c:423-468 | with no table for the configuration the PDU is unchanged; otherwise the CDM groups, the port bitmap packed from the row's flags and, for two-symbol DMRS, the front-loaded symbols of the chosen row |
| MacTables.RowBitmap | openair2/LAYER2/NR_MAC_UE/mac_tables.c:415-468 | the bitmap packed from a row's flags sets bit p exactly for the flagged port p |
| MacTables.PortFlags | openair2/LAYER2/NR_MAC_UE/mac_tables.c:544-557 | one flag per DMRS port, set exactly for the listed ports |
| MacTables.UlDmrsPorts | openair2/LAYER2/NR_MAC_UE/mac_tables.c:544-557 | the corrected UL port bitmap sets bit q exactly for the listed ports |
| MacTables.SinglePortAgrees | openair2/LAYER2/NR_MAC_UE/mac_tables.c:539-543 | for one port the code's 1 << port and the corrected bitmap agree |
| MacTables.UlPortRow | openair2/LAYER2/NR_MAC_UE/mac_tables.c:536-608 | a row of the UL antenna-port tables has the CDM groups, rank ports below 12 and, for two-symbol DMRS, the front-loaded symbols |
| MacTables.UlPortsConfig | openair2/LAYER2/NR_MAC_UE/mac_tables.c:470-608 | transform precoding with type 1 gives 2 CDM groups and the one-hot port of the value; type 2 there changes nothing; rank 3 and 4 of type 1 one-symbol give ports 0-2 and 0-3; an out-of-range rank changes nothing; the table-driven cases take the CDM groups and the bitmap naming the row's ports |
| MacTables.UlPortsType1OneSymbol | openair2/LAYER2/NR_MAC_UE/mac_tables.c:516-535 | the hard-coded CDM groups and bitmaps for type 1 one-symbol DMRS name exactly the ports of the rows of TS 38.212 Tables 7.3.1.1.2-8 to -11 |
| MacTables.AsWrittenUlPortsDropPort | openair2/LAYER2/NR_MAC_UE/mac_tables.c:544-548 | as written, row 0 of Table 7.3.1.1.2-13 lists ports 0 and 1 but packing the port numbers gives 2, which names port 1 only |
| MacTables.PrecodingColumn | openair2/LAYER2/NR_MAC_UE/mac_tables.c:610-679 | the chosen column pair is even and inside the table; for four ports it is one of the first six exactly without transform precoding and maxRank 2 to 4; maxRank 1 uses the single-layer columns; two ports never use the partial-and-non-coherent subset |
| MacTables.SetPrecodingInformation | openair2/LAYER2/NR_MAC_UE/mac_tables.c:610-679 | the PDU is unchanged when no table applies; otherwise its layers and TPMI are the entries of the chosen columns at the precoding field's row |
| MacTables.PrecodingColumnChoosesTable | openair2/LAYER2/NR_MAC_UE/mac_tables.c:610-679 | a table applies exactly for four ports with (no transform precoding and maxRank 2 to 4) or maxRank 1, and for two ports outside the partial-and-non-coherent subset with (no transform precoding and maxRank 2) or maxRank 1 |
| MacTableData.PrecodingTable | openair2/LAYER2/NR_MAC_UE/mac_tables.c:41-106 | Tables 7.3.1.1.2-2 to -5 side by side: 64 rows of 20 entries, each layer count within its table's maximum rank |
| MacTableData.UlPortsTable12 | openair2/LAYER2/NR_MAC_UE/mac_tables.c:108-123 | Table 7.3.1.1.2-12: 14 rows of 3 entries naming one port below 12 |
| MacTableData.UlPortsTable13 | openair2/LAYER2/NR_MAC_UE/mac_tables.c:125-136 | Table 7.3.1.1.2-13: 10 rows of 4 entries naming two ports below 12 |
| MacTableData.UlPortsTable14 | openair2/LAYER2/NR_MAC_UE/mac_tables.c:138-142 | Table 7.3.1.1.2-14: 3 rows of 5 entries naming three ports below 12 |
| MacTableData.UlPortsTable15 | openair2/LAYER2/NR_MAC_UE/mac_tables.c:144-149 | Table 7.3.1.1.2-15: 4 rows of 6 entries naming four ports below 12 |
| MacTableData.UlPortsTable16 | openair2/LAYER2/NR_MAC_UE/mac_tables.c:151-164 | Table 7.3.1.1.2-16: 12 rows of 2 entries naming one port below 12 |
| MacTableData.UlPortsTable17 | openair2/LAYER2/NR_MAC_UE/mac_tables.c:166-174 | Table 7.3.1.1.2-17: 7 rows of 3 entries naming two ports below 12 |
| MacTableData.UlPortsTable18 | openair2/LAYER2/NR_MAC_UE/mac_tables.c:176-180 | Table 7.3.1.1.2-18: 3 rows of 4 entries naming three ports below 12 |
| MacTableData.UlPortsTable19 | openair2/LAYER2/NR_MAC_UE/mac_tables.c:182-185 | Table 7.3.1.1.2-19: 2 rows of 5 entries naming four ports below 12 |
| MacTableData.UlPortsTable20 | openair2/LAYER2/NR_MAC_UE/mac_tables.c:187-216 | Table 7.3.1.1.2-20: 28 rows of 3 entries naming one port below 12 |
| MacTableData.UlPortsTable21 | openair2/LAYER2/NR_MAC_UE/mac_tables.c:218-238 | Table 7.3.1.1.2-21: 19 rows of 4 entries naming two ports below 12 |
| MacTableData.UlPortsTable22 | openair2/LAYER2/NR_MAC_UE/mac_tables.c:240-247 | Table 7.3.1.1.2-22: 6 rows of 5 entries naming three ports below 12 |
| MacTableData.UlPortsTable23 | openair2/LAYER2/NR_MAC_UE/mac_tables.c:249-255 | Table 7.3.1.1.2-23: 5 rows of 6 entries naming four ports below 12 |
| MacTableData.DlPortsType1Len1 | openair2/LAYER2/NR_MAC_UE/mac_tables.c:257-270 | Table 7.3.1.2.2-1: 12 rows of CDM groups and 4 port flags |
| MacTableData.DlPortsType1Len2OneCw | openair2/LAYER2/NR_MAC_UE/mac_tables.c:272-304 | Table 7.3.1.2.2-2, one codeword: 31 rows of CDM groups, 8 port flags and the front-loaded symbols |
| MacTableData.DlPortsType1Len2TwoCw | openair2/LAYER2/NR_MAC_UE/mac_tables.c:306-311 | Table 7.3.1.2.2-2, two codewords: 4 rows of the same shape |
| MacTableData.DlPortsType2Len1OneCw | openair2/LAYER2/NR_MAC_UE/mac_tables.c:313-338 | Table 7.3.1.2.2-3, one codeword: 24 rows of CDM groups and 6 port flags |
| MacTableData.DlPortsType2Len1TwoCw | openair2/LAYER2/NR_MAC_UE/mac_tables.c:340-343 | Table 7.3.1.2.2-3, two codewords: 2 rows of the same shape |
| MacTableData.DlPortsType2Len2OneCw | openair2/LAYER2/NR_MAC_UE/mac_tables.c:345-404 | Table 7.3.1.2.2-4, one codeword: 58 rows of CDM groups, 12 port flags and the front-loaded symbols |
| MacTableData.DlPortsType2Len2TwoCw | openair2/LAYER2/NR_MAC_UE/mac_tables.c:406-413 | Table 7.3.1.2.2-4, two codewords: 6 rows of the same shape |
| RaValues.PreambleTransMax | openair2/LAYER2/NR_MAC_UE/nr_ra_procedures.c:50-89 | defined exactly for the 11 enumerators, giving 3 to 200 transmissions |
| RaValues.PreambleTransMaxIncreasing | openair2/LAYER2/NR_MAC_UE/nr_ra_procedures.c:50-89 | a later enumerator allows strictly more transmissions |
| RaValues.Msg3SizeGroupABits | openair2/LAYER2/NR_MAC_UE/nr_ra_procedures.c:91-129 | defined exactly for the 10 enumerators, giving 56 to 1000 bits |
| RaValues.Msg3SizeGroupA | openair2/LAYER2/NR_MAC_UE/nr_ra_procedures.c:91-129 | the group-A size is the configured bit count rounded down to whole bytes |
| RaValues.Msg3ExceedsGroupA | openair2/LAYER2/NR_MAC_UE/nr_ra_procedures.c:91-129 | comparing a Msg3 size in bytes with the rounded byte count is the same as comparing its bits with the configured bits |
| RaValues.MessagePowerOffsetGroupB | openair2/LAYER2/NR_MAC_UE/nr_ra_procedures.c:131-163 | defined exactly for the 8 enumerators; minus infinity exactly for code 0; otherwise 0 to 18 dB |
| RaValues.DeltaPreamble | openair2/LAYER2/NR_MAC_UE/nr_ra_procedures.c:560-597 | defined exactly for the long formats 0 to 3 and the short formats A1 to C2; a long format's offset is between -6 and 0 dB |
| RaValues.DeltaPreambleScsStep | openair2/LAYER2/NR_MAC_UE/nr_ra_procedures.c:560-597 | one numerology step changes a short format's offset by 3 dB and leaves a long format's unchanged |
| RaValues.PreambleTargetPowerRamps | openair2/LAYER2/NR_MAC_UE/nr_ra_procedures.c:599-606 | each ramping step raises the target power by exactly the step; the first attempt uses the configured power plus the offsets |
| RaValues.PrachTxPower | openair2/LAYER2/NR_MAC_UE/nr_ra_procedures.c:42-48 | the transmit power is the smaller of PCMAX and the target plus the pathloss narrowed to int16_t, and equals the plain minimum when the sum fits |
| RaValues.UseGroupBAgreesWhenFinite | openair2/LAYER2/NR_MAC_UE/nr_ra_procedures.c:165-191 | with a finite offset and a threshold that fits in an int, the code's test and the standard's test agree |
| RaValues.AsWrittenMinusInfinityBlocksGroupB | openair2/LAYER2/NR_MAC_UE/nr_ra_procedures.c:136 | as written, the minus-infinity offset overflows the threshold so a large Msg3 never selects group B, where the standard selects it |
| RaValues.SelectPreambleGroup | openair2/LAYER2/NR_MAC_UE/nr_ra_procedures.c:165-191 | a buffered Msg3 keeps its group; without group B the UE uses group A; otherwise fails exactly for an invalid size or offset code, and uses group B exactly when the Msg3 exceeds group A and the pathloss is below the threshold (always, for minus infinity) |
| RaValues.SsbRoPreambles | openair2/LAYER2/NR_MAC_UE/nr_ra_procedures.c:193-276 | defined exactly for the 8 CHOICE alternatives; the SSBs per occasion are 2^(alternative - 1) / 8; several occasions per SSB exactly for the first three; preambles per SSB are 4 (n + 1) for the first five |
| RaValues.SsbPreambleBase | openair2/LAYER2/NR_MAC_UE/nr_ra_procedures.c:278-347 | one SSB per occasion or fewer starts at preamble 0; SSBs sharing an occasion each own their block of preambles |
| RaValues.PreambleIndexAsWritten | openair2/LAYER2/NR_MAC_UE/nr_ra_procedures.c:278-347 | the code's draw fails exactly when group A is not below the total or the range is empty, and otherwise lies in the drawn range after the group-B offset |
| RaValues.PreambleIndex | openair2/LAYER2/NR_MAC_UE/nr_ra_procedures.c:278-347 | the corrected draw is one of the SSB's contention-based preambles, in group A exactly when group A was asked for |
| RaValues.AsWrittenGroupBLeavesSsbPreambles | openair2/LAYER2/NR_MAC_UE/nr_ra_procedures.c:278-347 | as written, with 32 preambles per SSB out of 64 and 16 in group A, a group-B UE can get preamble 36, outside its SSB's preambles |
| RaValues.PreambleIndexAgreesOutsideGroupB | openair2/LAYER2/NR_MAC_UE/nr_ra_procedures.c:278-347 | for group A, or without group B, the code's draw and the corrected draw agree |
| RaValues.OccasionSerial | openair2/LAYER2/NR_MAC_UE/nr_ra_procedures.c:438-471 | a shared SSB's draw falls among the occasions it owns; otherwise the serial's block of occasions holds the SSB's draw |
| RaValues.BlockStart | openair2/LAYER2/NR_MAC_UE/nr_ra_procedures.c:438-471 | position r of block b of width m lies in block b |
| RaValues.QuotientBrackets | openair2/LAYER2/NR_MAC_UE/nr_ra_procedures.c:438-471 | the block found holds the value |
| RaValues.SelectPrachOccasion | openair2/LAYER2/NR_MAC_UE/nr_ra_procedures.c:438-471 | fails exactly when the SSB has no occasion; otherwise the occasion lies in the period and period and occasion recombine to the drawn serial |
| RaValues.SplitSerial | openair2/LAYER2/NR_MAC_UE/nr_ra_procedures.c:438-471 | splitting a serial into association period and occasion is exact |
| RaValues.LongestPeriod | openair2/LAYER2/NR_MAC_UE/nr_ra_procedures.c:473-557 | the longest reachable association period is at least the start |
| RaValues.DoublePowerOfTwo | openair2/LAYER2/NR_MAC_UE/nr_ra_procedures.c:473-557 | doubling the association period keeps a power of two |
| RaValues.AssociationPeriodFrom | openair2/LAYER2/NR_MAC_UE/nr_ra_procedures.c:473-557 | the doubling loop stops at the first power of two whose occasions cover the SSBs, within 16 frames, and fails exactly when even the longest does not |
| RaValues.AssociationPeriod | openair2/LAYER2/NR_MAC_UE/nr_ra_procedures.c:473-557 | the association period is the least power of two covering the SSBs, at most 16 frames of configuration periods, and fails exactly when none does |
| RaValues.LongestPeriodBound | openair2/LAYER2/NR_MAC_UE/nr_ra_procedures.c:473-557 | doubling past 1 only happens while the pattern fits in 16 frames |
| RaProcedures.AsWrittenOrderIgnoresIndex | openair2/LAYER2/NR_MAC_UE/nr_ra_procedures.c:947 | as written, for every 6-bit preamble index the test only asks whether an order is active |
| RaProcedures.AsWrittenOrderZeroIsContentionFree | openair2/LAYER2/NR_MAC_UE/nr_ra_procedures.c:947 | as written, an order with preamble index 0 is taken as contention-free, where the standard asks for contention-based access |
| RaProcedures.SelectRaType | openair2/LAYER2/NR_MAC_UE/nr_ra_procedures.c:945-991 | contention-free exactly with dedicated CFRA, an order naming a preamble, or 2-step CFRA; 2-step exactly without the first two and with 2-step CFRA or an RSRP above a finite threshold; stops exactly when both RA types are configured without a threshold |
| RaProcedures.WindowTablesDiffer | openair2/LAYER2/NR_MAC_UE/nr_ra_procedures.c:643-778 | the code's window tables differ from the enumerators exactly at msgB r16 sl320 and at the last entry of the v1700 tables |
| RaProcedures.WindowTableIncreasing | openair2/LAYER2/NR_MAC_UE/nr_ra_procedures.c:643-778 | longer enumerators mean longer windows |
| RaProcedures.WindowLookup | openair2/LAYER2/NR_MAC_UE/nr_ra_procedures.c:643-778 | a lookup succeeds exactly inside the enumeration and returns that entry |
| RaProcedures.AsWrittenRarWindowIsBase | openair2/LAYER2/NR_MAC_UE/nr_ra_procedures.c:746-778 | as written, the 4-step window is the base ra-ResponseWindow whatever extension is configured |
| RaProcedures.WindowSlots | openair2/LAYER2/NR_MAC_UE/nr_ra_procedures.c:780-826 | the corrected window: for 2-step one of the two msgB fields, accepted exactly when it fits in 40 ms; for 4-step the v1700, else the v1610, else the base field; at least one slot |
| RaProcedures.AsWrittenMsgBRejectsSl2560 | openair2/LAYER2/NR_MAC_UE/nr_ra_procedures.c:662 | as written, sl2560 at 640 slots per frame (exactly 40 ms) is refused |
| RaProcedures.AsWrittenMsgBRejectsSl320 | openair2/LAYER2/NR_MAC_UE/nr_ra_procedures.c:701 | as written, sl320 at 80 slots per frame (exactly 40 ms) is refused |
| RaProcedures.AsWrittenRarIgnoresV1610 | openair2/LAYER2/NR_MAC_UE/nr_ra_procedures.c:746-778 | as written, a v1610 sl60 window with the base field at sl80 waits 80 slots instead of 60 |
| RaProcedures.WindowSlotsAgreeOnBaseFields | openair2/LAYER2/NR_MAC_UE/nr_ra_procedures.c:643-826 | without the extension fields the code's and the corrected windows agree |
| RaProcedures.InitRa | openair2/LAYER2/NR_MAC_UE/nr_ra_procedures.c:830-1063 | the chosen RA type, counters at 1, ramping step, target power and preambleTransMax from the 2-step configuration when it applies, else the 4-step one; a Msg3 request to RRC exactly for contention-based access without a C-RNTI Msg3; the response window of setup_ra_response_window as written (nr_ra_procedures.c:780-826) plus the timing advance, which for 4-step access is the base ra-ResponseWindow |
| RaProcedures.FindCfraResourceFrom | openair2/LAYER2/NR_MAC_UE/nr_ra_procedures.c:349-421 | the resource found serves the SSB and is the first from the start; none when no later resource does |
| RaProcedures.FindCfraResource | openair2/LAYER2/NR_MAC_UE/nr_ra_procedures.c:349-421 | the first resource serving the SSB, none exactly when no resource does |
| RaProcedures.ChoosePreamble | openair2/LAYER2/NR_MAC_UE/nr_ra_procedures.c:349-421 | an order naming a preamble gives its preamble, SSB and mask; contention-based access gives the drawn preamble on the camped SSB; dedicated access gives the preamble of the first resource for the SSB, failing when there is none |
| RaProcedures.ConfigureRaPreamble | openair2/LAYER2/NR_MAC_UE/nr_ra_procedures.c:349-421 | succeeds exactly when a preamble is chosen with mask 0 or none; records the preamble and the SSB's position, flagging a new SSB exactly when the position changed |
| RaProcedures.NextRampingCounter | openair2/LAYER2/NR_MAC_UE/nr_ra_procedures.c:609-630 | the ramping counter grows by one exactly on a retransmission with an unchanged SSB, and otherwise stays |
| RaProcedures.PreambleTransmission | openair2/LAYER2/NR_MAC_UE/nr_ra_procedures.c:609-630 | fails exactly for an unknown format; otherwise only the ramping counter and the target power change, the target computed from the new counter |
| RaProcedures.AsWrittenNewSsbBlocksRamping | openair2/LAYER2/NR_MAC_UE/nr_ra_procedures.c:416 | as written, a retransmission on SSB 1 (position 0) is flagged as a new SSB and the power does not ramp; the corrected flag ramps it |
| RaProcedures.Msg3Transmitted | openair2/LAYER2/NR_MAC_UE/nr_ra_procedures.c:1065-1082 | the procedure waits for contention resolution with a timer of 8 (code + 1) ms in slots plus the timing advance; nothing else changes |
| RaProcedures.TimerAtLeastMs | openair2/LAYER2/NR_MAC_UE/nr_ra_procedures.c:1065-1082 | with at least one slot per millisecond the timer lasts at least its nominal length |
| RaProcedures.RaSucceeded | openair2/LAYER2/NR_MAC_UE/nr_ra_procedures.c:1152-1176 | RRC is told of success, the UE is connected, the procedure ends; contention-based access promotes the temporary C-RNTI and stops the timer |
| RaProcedures.BackoffSlots | openair2/LAYER2/NR_MAC_UE/nr_ra_procedures.c:1178-1186 | the backoff is a draw below the limit, 0 without a limit |
| RaProcedures.ContentionResolutionFailed | openair2/LAYER2/NR_MAC_UE/nr_ra_procedures.c:1188-1207 | the temporary C-RNTI and Msg3 are dropped, RRC asked for a new Msg3 and the attempt counted; a problem is reported at preambleTransMax + 1, otherwise a backoff starts; nothing else changes |
| RaProcedures.RarNotSuccessful | openair2/LAYER2/NR_MAC_UE/nr_ra_procedures.c:1209-1232 | the attempt is counted; at preambleTransMax + 1 a problem is reported in SA mode, or the procedure ends otherwise; if it goes on a backoff starts |
| RaProcedures.AfterRarFailuresCounts | openair2/LAYER2/NR_MAC_UE/nr_ra_procedures.c:1209-1232 | each RAR failure counts once and preambleTransMax never changes |
| RaProcedures.GivesUpAtTransMax | openair2/LAYER2/NR_MAC_UE/nr_ra_procedures.c:1209-1232 | from a fresh procedure, the failure that reports a problem (SA) or ends the procedure is exactly the preambleTransMax-th one |
| RaProcedures.TriggerRa | openair2/LAYER2/NR_MAC_UE/nr_ra_procedures.c:1234-1247 | the procedure restarts from a cleared context with a C-RNTI Msg3, keeping a PDCCH order when there is one |
| RaProcedures.MixedSlotAcceptsPrach | openair2/LAYER2/NR_MAC_UE/nr_ra_procedures.c:423-436 | outside mixed slots every occasion is kept; in a mixed slot it is kept only when its symbols are UL, and kept whenever its first and last symbols are UL |
| CsiRx.CsiRsInSymbolAsWritten | openair1/PHY/NR_UE_TRANSPORT/csi_rx.c:122-168 | as written, rows outside 1 to 18 stop the UE, and the CDM8 rows 15 and 18 occupy symbols l0 to l0 + 2 only |
| CsiRx.CsiRsInSymbol | openair1/PHY/NR_UE_TRANSPORT/csi_rx.c:122-168 | the corrected test stops the UE on the same rows and gives the CDM8 rows symbols l0 to l0 + 3 |
| CsiRx.AsWrittenSymbolsMatchTable | openair1/PHY/NR_UE_TRANSPORT/csi_rx.c:122-168 | outside the CDM8 rows the switch lists exactly the symbols of the CSI-RS location table |
| CsiRx.AsWrittenCdm8MissesFourthSymbol | openair1/PHY/NR_UE_TRANSPORT/csi_rx.c:145-166 | as written, symbol l0 + 3 of a CDM8 row (FD2-TD4) is reported empty although the row occupies it |
| CsiRx.CsiRsInSymbolExtendsAsWritten | openair1/PHY/NR_UE_TRANSPORT/csi_rx.c:122-168 | the corrected test adds exactly l0 + 3 on the CDM8 rows and agrees elsewhere |
| CsiRx.Measured | openair1/PHY/NR_UE_TRANSPORT/csi_rx.c:255-258 | the measured samples are drawn from the first n RBs, at most one per RB |
| CsiRx.DeviationsNonNegative | openair1/PHY/NR_UE_TRANSPORT/csi_rx.c:250-264 | the sum of squared deviations from any value is never negative |
| CsiRx.SumSquaredBound | openair1/PHY/NR_UE_TRANSPORT/csi_rx.c:250-264 | the square of the sum is at most n times the sum of squares (Cauchy-Schwarz), so the estimate is never negative |
| CsiRx.IntegerVarianceRange | openair1/PHY/NR_UE_TRANSPORT/csi_rx.c:263 | for 16-bit samples the integer estimate lies in [0, 2^32), so the unsigned result neither wraps nor truncates |
| CsiRx.CalcPowerCsirs | openair1/PHY/NR_UE_TRANSPORT/csi_rx.c:250-264 | the corrected estimate fails (a division by zero) exactly when no RB is measured, and is below 2^32 |
| CsiRx.MeasuredEmpty | openair1/PHY/NR_UE_TRANSPORT/csi_rx.c:255-261 | no sample is measured exactly when the frequency density skips every RB |
| CsiRx.SquareAsWritten | openair1/PHY/NR_UE_TRANSPORT/csi_rx.c:260 | the product of two 16-bit samples equals the true square whenever it fits in an int |
| CsiRx.PowerSumsAsWritten | openair1/PHY/NR_UE_TRANSPORT/csi_rx.c:252-262 | the loop counts at most one RB per RB scanned |
| CsiRx.CalcPowerCsirsAsWritten | openair1/PHY/NR_UE_TRANSPORT/csi_rx.c:250-264 | the as-written estimate is returned truncated to 32 bits |
| CsiRx.UnsignedResult | openair1/PHY/NR_UE_TRANSPORT/csi_rx.c:263 | the 64-bit difference returned as uint32 is below 2^32 and unchanged when it already fits |
| CsiRx.PowerSumsExact | openair1/PHY/NR_UE_TRANSPORT/csi_rx.c:252-262 | with samples whose square fits an int and fewer than 2^16 RBs, the running sums are the exact sums of the measured samples |
| CsiRx.AsWrittenPowerAgreesBelowOverflow | openair1/PHY/NR_UE_TRANSPORT/csi_rx.c:250-264 | below the int overflow the code computes the corrected estimate |
| CsiRx.AsWrittenPowerOverflows | openair1/PHY/NR_UE_TRANSPORT/csi_rx.c:260 | as written, one sample of 46341 among six RBs of density 2 overflows int and gives 2445753632 instead of 298269984 |
| CsiRx.CountBelow | openair1/PHY/NR_UE_TRANSPORT/csi_rx.c:539-555 | the count of REs whose condition number is below the threshold is at most the number of REs |
| CsiRx.RankIndicator | openair1/PHY/NR_UE_TRANSPORT/csi_rx.c:438-569 | code 0 and rank index 0 for one receive antenna or one port; code -1 exactly for any other configuration than 2x2; rank index 1 (two layers) exactly for 2x2 when more than half the REs have a condition number below the threshold |
| CsiRx.BestCandidate | openair1/PHY/NR_UE_TRANSPORT/csi_rx.c:649-655 | the first candidate with the largest tested SINR |
| CsiRx.TestedSinr | openair1/PHY/NR_UE_TRANSPORT/csi_rx.c:646 | a non-negative power gives the truncated quotient by the interference-plus-noise power |
| CsiRx.PmiEstimation | openair1/PHY/NR_UE_TRANSPORT/csi_rx.c:571-667 | no report for one port or no interference-plus-noise power; code -1 exactly for a rank index above 1; for rank index 0 the first candidate with the largest tested SINR; for rank index 1 the better of the pairs (0, 2) and (1, 3) with their mean SINR |
| CsiRx.Cqi | openair1/PHY/NR_UE_TRANSPORT/csi_rx.c:669-702 | CQI 0 exactly for SINR 0 and 15 exactly above 19 dB; otherwise 4 to 14 with the SINR inside the CQI's band |
| CsiRx.CqiIsBand | openair1/PHY/NR_UE_TRANSPORT/csi_rx.c:669-702 | any CQI whose band holds the SINR is the CQI reported |
| CsiRx.CqiMonotone | openair1/PHY/NR_UE_TRANSPORT/csi_rx.c:669-702 | a better SINR never lowers the CQI |
| NasMessages.MsgType | openair3/NAS/NR_UE/nr_nas_msg.c:1321-1356 | 0 for a missing or short buffer; byte 2 of a plain message; byte 9 of a protected one; byte 16 for a protected DL NAS TRANSPORT |
| NasMessages.PlainMsgType | openair3/NAS/NR_UE/nr_nas_msg.c:1330-1336 | a plain message yields the type its header carries |
| NasMessages.ProtectedMsgType | openair3/NAS/NR_UE/nr_nas_msg.c:1339-1351 | a protected message yields the type of the plain header inside |
| NasMessages.TransportedMsgType | openair3/NAS/NR_UE/nr_nas_msg.c:1344-1349 | a protected DL NAS TRANSPORT yields the type of the 5GSM message in its container |
| NasMessages.SyncCount | openair3/NAS/NR_UE/nr_nas_msg.c:142-151 | the synchronised count ends in the received sequence number, stays below 2^32 and moves forward by less than 256 |
| NasMessages.SyncCountIsLeast | openair3/NAS/NR_UE/nr_nas_msg.c:142-151 | the synchronised count is the least count not below the current one ending in the sequence number |
| NasMessages.SecurityRx | openair3/NAS/NR_UE/nr_nas_msg.c:117-192 | no context, a PDU under 8 bytes, a plain PDU and the integrity-only types give their codes with the count unchanged; the count is synchronised, a count past 24 bits exits, a failed MAC keeps the synchronised count, a passed one adds one |
| NasMessages.SecurityRxKeepsCountOrder | openair3/NAS/NR_UE/nr_nas_msg.c:142-191 | from a count within 24 bits the check never lowers the count; after a failed check its low byte is the received sequence number, after a passed one the low byte of the count before the increment |
| NasMessages.KnasInput | openair3/NAS/NR_UE/nr_nas_msg.c:377-393 | the KNAS input string is FC 0x69, the algorithm type distinguisher, 00 01, the algorithm identity, 00 01 |
| NasMessages.KnasKey | openair3/NAS/NR_UE/nr_nas_msg.c:377-393 | KNAS is the last 16 bytes of the 32-byte KDF output |
| NasMessages.KgnbInput | openair3/NAS/NR_UE/nr_nas_msg.c:395-428 | the KgNB input string is 10 bytes starting with FC 0x6E |
| NasMessages.KgnbInputCarriesCount | openair3/NAS/NR_UE/nr_nas_msg.c:395-428 | the KgNB input holds the UL NAS COUNT big-endian, 00 04, the access type, 00 01, and gives the count back |
| NasMessages.SetRegistrationType | openair3/NAS/NR_UE/nr_nas_msg.c:544-569 | reserved exactly for a registered idle UE with T3512 running or an unregistered connected UE with RRC inactive; mobility updating exactly for other registered UEs; initial registration otherwise |
| NasMessages.Mnc | openair3/NAS/NR_UE/nr_nas_msg.c:95-115 | a two-digit MNC gets a leading zero; a three-digit one is copied |
| NasMessages.ServingNetworkName | openair3/NAS/NR_UE/nr_nas_msg.c:95-115 | the serving network name has 32 characters |
| NasMessages.ParseServingNetworkName | openair3/NAS/NR_UE/nr_nas_msg.c:95-115 | a parsed name gives a 3-digit MNC and a 3-digit MCC |
| NasMessages.ServingNetworkNameRoundTrip | openair3/NAS/NR_UE/nr_nas_msg.c:95-115 | the serving network name carries the zero-padded MNC and the MCC of the IMSI |
| NasMessages.EncodeSnssai | openair3/NAS/NR_UE/nr_nas_msg.c:1261-1271 | the S-NSSAI is one octet (the SST) when the SD is the no-SD value 0xFFFFFF, and four octets otherwise, starting with the SST |
| NasMessages.DecodeSnssai | openair3/NAS/NR_UE/nr_nas_msg.c:1261-1271 | S-NSSAI contents of one or four octets read back as an SST and an SD of at most 24 bits |
| NasMessages.SnssaiRoundTrip | openair3/NAS/NR_UE/nr_nas_msg.c:1261-1271 | an S-NSSAI decodes to the SST and SD it was built from, the SD sent in three octets |
| NasMessages.UserNssaiIdx | openair3/NAS/NR_UE/nr_nas_msg.c:1395-1403 | the index of the first of the eight allowed S-NSSAIs equal to the UE's, or -1 exactly when none is |
| F1apSetup.ToNrNrb | openair2/F1AP/lib/f1ap_interface_management.c:38-44 | the NRNRB enumeration index is the position of the bandwidth in the RB table; a bandwidth outside the table aborts |
| F1apSetup.NrNrbRoundTrip | openair2/F1AP/lib/f1ap_interface_management.c:34-44 | every table entry is encoded as its own position, so the index decodes back to the bandwidth |
| F1apSetup.EncodeTac | openair2/F1AP/lib/f1ap_interface_management.c:98-102 | the TAC is sent as three octets |
| F1apSetup.DecodeTac | openair2/F1AP/lib/f1ap_interface_management.c:166-170 | the three TAC octets decode to a 24-bit value |
| F1apSetup.TacRoundTrip | openair2/F1AP/lib/f1ap_interface_management.c:98-102 | the octets are the low three bytes in network order, and a TAC survives the round trip exactly modulo 2^24 |
| F1apSetup.RrcVersionOctetAsWritten | openair2/F1AP/lib/f1ap_interface_management.c:321-330 | as written, bit i of the octet is set exactly when rrc_ver[i] is non-zero |
| F1apSetup.AsWrittenRrcVersionIsZero | openair2/F1AP/lib/f1ap_interface_management.c:321-330 | with five unused bits those flags fall into the unused part, so the 3-bit value sent is always 000 and differs from the intended one whenever a version is set |
| F1apSetup.RrcVersionOctet | openair2/F1AP/lib/f1ap_interface_management.c:321-330 | the corrected octet makes the 3-bit BIT STRING read back as the three non-zero flags |
| F1apSetup.EncodeMode | openair2/F1AP/lib/f1ap_interface_management.c:106-154 | the FDD or TDD mode info aborts exactly when a transmission bandwidth is not in the RB table |
| F1apSetup.EncodeCell | openair2/F1AP/lib/f1ap_interface_management.c:89-161 | a served cell is encoded unless its mode info aborts, with exactly one served PLMN and no slice list |
| F1apSetup.EncodeCells | openair2/F1AP/lib/f1ap_interface_management.c:300-315 | the served-cells list has one item per cell in use, each carrying the encoded cell and the cell's system information |
| F1apSetup.EncodeRequest | openair2/F1AP/lib/f1ap_interface_management.c:267-344 | the request is encoded exactly when every cell in use is encodable |
| F1apSetup.DecodeSlices | openair2/F1AP/lib/f1ap_interface_management.c:46-70 | more than 16 slices abort; otherwise each slice keeps its SST and its SD, an absent SD giving 0xFFFFFF |
| F1apSetup.DecodeMode | openair2/F1AP/lib/f1ap_interface_management.c:180-224 | mode info is accepted exactly with one UL and one DL band for FDD or one band for TDD, and never aborts |
| F1apSetup.DecodeCell | openair2/F1AP/lib/f1ap_interface_management.c:163-229 | a served cell aborts exactly on more than 16 slices and is accepted exactly with one served PLMN, acceptable mode info and a non-empty measurement timing configuration; a present TAC replaces the previous one |
| F1apSetup.DecodeCells | openair2/F1AP/lib/f1ap_interface_management.c:386-408 | accepted cells are decoded in order into the first entries of the cell array |
| F1apSetup.CString | openair2/F1AP/lib/f1ap_interface_management.c:378-382 | the name copied is the prefix before the first NUL |
| F1apSetup.ApplyIe | openair2/F1AP/lib/f1ap_interface_management.c:362-426 | one IE is refused exactly for transaction id -1, an unknown IE, no served cells or a refused cell; it aborts exactly on a cell that aborts or an RRC version extension not 3 bytes long |
| F1apSetup.DecodeIes | openair2/F1AP/lib/f1ap_interface_management.c:362-426 | an IE list holding an unknown IE is never accepted, and the cell array keeps its size |
| F1apSetup.DecodeRequest | openair2/F1AP/lib/f1ap_interface_management.c:349-429 | a request without a transaction id, a DU id or an RRC version is refused; otherwise every IE is applied in order |
| F1apSetup.CopyRequest | openair2/F1AP/lib/f1ap_interface_management.c:450-487 | the copy keeps the cell count and the cells in use, and leaves the other entries empty |
| F1apSetup.CopyIsEqual | openair2/F1AP/lib/f1ap_interface_management.c:450-509 | a copy compares equal to its original |
| F1apSetup.EqIffSameCopy | openair2/F1AP/lib/f1ap_interface_management.c:492-509 | two requests compare equal exactly when their copies are the same |
| F1apSetup.DecodeEncodedCell | openair2/F1AP/lib/f1ap_interface_management.c:89-229 | decoding an encoded cell gives back the transmitted part of the cell |
| F1apSetup.DecodeEncodedCells | openair2/F1AP/lib/f1ap_interface_management.c:288-408 | decoding the encoded served-cells list gives back the transmitted cells followed by the untouched entries |
| F1apSetup.DecodeEncodedRequest | openair2/F1AP/lib/f1ap_interface_management.c:267-429 | decoding an encoded request with at least one encodable cell gives back the request as far as the encoder transmits it |
| TelnetO1.SkipSpaces | common/utils/telnetsrv/telnetsrv_o1.c:204-205 | the leading-space skip stops inside the buffer, at or after where it started |
| TelnetO1.SkipDigits | common/utils/telnetsrv/telnetsrv_o1.c:219-220 | the digit skip stops inside the buffer, at or after where it started |
| TelnetO1.Saturate | common/utils/telnetsrv/telnetsrv_o1.c:216 | sscanf's %ld clamps an out-of-range numeral into [LONG_MIN, LONG_MAX] and keeps one in range |
| TelnetO1.Decimal | common/utils/telnetsrv/telnetsrv_o1.c:216 | the numeral of a value has at least one digit |
| TelnetO1.DecimalValue | common/utils/telnetsrv/telnetsrv_o1.c:216 | a numeral is all digits and converts back to its value |
| TelnetO1.ScanLong | common/utils/telnetsrv/telnetsrv_o1.c:216-218 | a conversion yields a value in the range of a long |
| TelnetO1.ReadLong | common/utils/telnetsrv/telnetsrv_o1.c:201-224 | a successful read gives an offset inside the buffer and a value in the range of a long |
| TelnetO1.ScanRendered | common/utils/telnetsrv/telnetsrv_o1.c:216-218 | sscanf on a written numeral gives its value and the end of its digits |
| TelnetO1.ReadFieldThen | common/utils/telnetsrv/telnetsrv_o1.c:201-224 | read_long on a field (spaces, the id, spaces, a numeral) returns the field's value; the corrected offset is just past the numeral, the as-written one stops at a minus sign |
| TelnetO1.ReadFieldNext | common/utils/telnetsrv/telnetsrv_o1.c:201-224 | the offset read_long returns is where the next read starts, and the text from there is what follows the field |
| TelnetO1.ReadAll | common/utils/telnetsrv/telnetsrv_o1.c:243-276 | the reads return one value per id, or fail naming the first id that cannot be read |
| TelnetO1.ReadAllFields | common/utils/telnetsrv/telnetsrv_o1.c:243-276 | the corrected reader recovers the value of every field written in order |
| TelnetO1.ReadAllStopsAtMissing | common/utils/telnetsrv/telnetsrv_o1.c:243-276 | when the k-th id cannot be read after k good fields, the reads fail naming it |
| TelnetO1.SetConfig | common/utils/telnetsrv/telnetsrv_o1.c:227-287 | a missing argument and a running L1 fail before any read; any failure to read names one of the five parameters |
| TelnetO1.SetConfigReadsFields | common/utils/telnetsrv/telnetsrv_o1.c:227-287 | a stopped modem given the five fields in order gets back exactly their values |
| TelnetO1.NoIdAtSign | common/utils/telnetsrv/telnetsrv_o1.c:207-210 | an id is never found where the text starts with a minus sign |
| TelnetO1.AsWrittenStopsAfterNegative | common/utils/telnetsrv/telnetsrv_o1.c:216-223 | as written, a negative first value leaves the offset at its minus sign, so the read of the second id fails although its field is present |
| TelnetO1.AsWrittenNegativeSsbFails | common/utils/telnetsrv/telnetsrv_o1.c:243-257 | as written, a negative SSB frequency makes set_config fail on the downlink ARFCN that follows it |
| TelnetO1.CutAt | common/utils/telnetsrv/telnetsrv_o1.c:297-300 | the text is cut at the first occurrence of the character, or kept whole when it does not occur |
| TelnetO1.BwOption | common/utils/telnetsrv/telnetsrv_o1.c:296-300 | the option has no newline and no carriage return |
| TelnetO1.PresetFor | common/utils/telnetsrv/telnetsrv_o1.c:308-347 | a preset exists exactly for the options 20, 40, 60 and 100 |
| TelnetO1.SetBwconfig | common/utils/telnetsrv/telnetsrv_o1.c:289-359 | a running L1 fails, then a missing argument; a known option succeeds with its preset unless an UL point A is configured, which aborts; any other option fails |
| TelnetO1.RivRoundTrip | common/utils/telnetsrv/telnetsrv_o1.c:313-345 | the resource indication value of an allocation decodes back to its length and start |
| TelnetO1.PresetsSpanCarrier | common/utils/telnetsrv/telnetsrv_o1.c:308-347 | each preset's initial BWP is the whole carrier from RB 0, with at most 275 RBs |
| BchScheduler.MibEveryEightFrames | openair2/LAYER2/NR_MAC_gNB/gNB_scheduler_bch.c:130-136 | once the first MIB is out, the MIB is re-encoded in slot 0 of exactly one frame in every run of eight frames |
| BchScheduler.MibPayload | openair2/LAYER2/NR_MAC_gNB/gNB_scheduler_bch.c:146 | the BCH payload is a 24-bit value |
| BchScheduler.MibPayloadBytes | openair2/LAYER2/NR_MAC_gNB/gNB_scheduler_bch.c:146 | the payload carries the first three bytes of the encoded MIB, the first byte least significant, and drops the fourth |
| BchScheduler.SsbFramePeriodicity | openair2/LAYER2/NR_MAC_gNB/gNB_scheduler_bch.c:148-152 | SSBs are generated every one or more frames |
| BchScheduler.FramePeriodicityIsPeriod | openair2/LAYER2/NR_MAC_gNB/gNB_scheduler_bch.c:148-152 | for a periodicity index of 1 or more the frame periodicity is the SSB period (5 ms times 2^p) in whole frames |
| BchScheduler.SsbSlotByAbsoluteSlot | openair2/LAYER2/NR_MAC_gNB/gNB_scheduler_bch.c:154-161 | a slot is an SSB slot with relative slot r exactly when it lies r slots into an SSB period |
| BchScheduler.InPeriodOffset | openair2/LAYER2/NR_MAC_gNB/gNB_scheduler_bch.c:154 | slot s of frame f lies (f mod per) frames and s slots into a period of per frames |
| BchScheduler.MaxSsbs | openair2/LAYER2/NR_MAC_gNB/gNB_scheduler_bch.c:172-271 | the short, medium and long bitmaps hold 4, 8 and 64 SSBs; any other choice aborts |
| BchScheduler.BurstBytes | openair2/LAYER2/NR_MAC_gNB/gNB_scheduler_bch.c:168-170 | a burst bitmap of n bytes |
| BchScheduler.BurstBytesRoundTrip | openair2/LAYER2/NR_MAC_gNB/gNB_scheduler_bch.c:176-240 | reading SSB i from the bitmap, most significant bit first, gives back whether i is in the burst |
| BchScheduler.SsbsFromMembers | openair2/LAYER2/NR_MAC_gNB/gNB_scheduler_bch.c:172-268 | the SSB loop yields, in increasing order, exactly the SSBs of the burst whose start symbol lies in the relative slot |
| BchScheduler.ScheduledSsbs | openair2/LAYER2/NR_MAC_gNB/gNB_scheduler_bch.c:117-275 | nothing is scheduled outside an SSB slot; in an SSB slot an unknown bitmap choice aborts |
| BchScheduler.ScheduledSsbsExactly | openair2/LAYER2/NR_MAC_gNB/gNB_scheduler_bch.c:154-275 | an SSB is scheduled exactly when the slot is an SSB slot, the SSB is in the burst and its start symbol lies in the relative slot, in increasing order |
| BchScheduler.Run | openair2/LAYER2/NR_MAC_gNB/gNB_scheduler_bch.c:105 | the symbol run has ones exactly from its start |
| BchScheduler.SymbolBitmapBits | openair2/LAYER2/NR_MAC_gNB/gNB_scheduler_bch.c:105 | the symbol bitmap marks exactly the symbols of the run |
| BchScheduler.FillSsbVrbMap | openair2/LAYER2/NR_MAC_gNB/gNB_scheduler_bch.c:91-106 | filling the VRB map keeps its size |
| BchScheduler.FillSsbVrbMapMarks | openair2/LAYER2/NR_MAC_gNB/gNB_scheduler_bch.c:91-106 | each of the SSB's 20 RBs (21 with a subcarrier offset) marks exactly the four symbols from the start symbol within the slot; the other RBs are unchanged |
| BchScheduler.OtherSibAgreeWithoutWrap | openair2/LAYER2/NR_MAC_gNB/gNB_scheduler_bch.c:816-831 | the as-written and the corrected occasion tests agree when the frame is not before the occasion's frame offset |
| BchScheduler.OtherSibOccasion | openair2/LAYER2/NR_MAC_gNB/gNB_scheduler_bch.c:816-831 | with the window inside the SI period, the corrected test selects exactly slot relSlot after the window start slot, relFrame frames after a window-start frame |
| BchScheduler.PeriodDividesSfnRange | openair2/LAYER2/NR_MAC_gNB/gNB_scheduler_bch.c:825-826 | the SI period 8 << period divides the 1024 frame numbers |
| BchScheduler.AsWrittenMissesOccasionAtSfnWrap | openair2/LAYER2/NR_MAC_gNB/gNB_scheduler_bch.c:827-829 | the occasion test alone, asked about an occasion past the end of its SI period (window in the eighth frame of an 8-frame period, relFrame 1, frame 0), misses it where the corrected test selects it; schedule_nr_other_sib never asks this (BchScheduler.OtherSibCallerAgrees) |
| BchScheduler.FrameTestAgrees | openair2/LAYER2/NR_MAC_gNB/gNB_scheduler_bch.c:827-829 | with the SI period dividing 1024, C's remainders of the frame difference and the mathematical ones select the same frames unless a negative difference reaches back past the period start |
| BchScheduler.OtherSibAgreeInsidePeriod | openair2/LAYER2/NR_MAC_gNB/gNB_scheduler_bch.c:816-831 | the as-written and the corrected occasion tests agree whenever the window starts at the period start, the occasion's frame stays inside the period, or the window starts past the period |
| BchScheduler.WindowFrames | openair2/LAYER2/NR_MAC_gNB/gNB_scheduler_bch.c:867-868 | window_length_f is the number of frames the window covers, rounded up: enough frames to hold it, and one frame fewer would not |
| BchScheduler.LongWindowFrames | openair2/LAYER2/NR_MAC_gNB/gNB_scheduler_bch.c:866-868 | a window of 5 << wlExp slots longer than a frame of 10 << mu slots covers exactly 2^(wlExp - mu - 1) whole frames |
| BchScheduler.WindowFitsPeriod | openair2/LAYER2/NR_MAC_gNB/gNB_scheduler_bch.c:816-831 | a window of a power-of-two number of frames starts at its SI period's start, ends inside the period, or starts past it |
| BchScheduler.CallerWindowShape | openair2/LAYER2/NR_MAC_gNB/gNB_scheduler_bch.c:866-885 | for every window the caller sets up, a frame offset below window_length_f (the AssertFatal on temp_frame) is 0 or keeps the occasion inside the period, and is below 1024 |
| BchScheduler.OtherSibCallerAgrees | openair2/LAYER2/NR_MAC_gNB/gNB_scheduler_bch.c:866-914 | for every si-WindowLength, numerology and period schedule_nr_other_sib passes, the code's occasion test equals the corrected one |
| XdmaOffload.LiftingSetIndex | openair1/PHY/CODING/nrLDPC_coding/nrLDPC_coding_xdma/nrLDPC_coding_xdma_offload.c:711-727 | the set index is below 8, and a non-zero index names a factor that divides Zc |
| XdmaOffload.ZSetBaseAgrees | openair1/PHY/CODING/nrLDPC_coding/nrLDPC_coding_xdma/nrLDPC_coding_xdma_offload.c:216-231 | the z_set table of the DMA functions and the decoder's 2 or 2 i_LS + 1 give the same factor, one of the eight factors of the lifting-size table of TS 38.212 |
| XdmaOffload.DecoderLifting | openair1/PHY/CODING/nrLDPC_coding/nrLDPC_coding_xdma/nrLDPC_coding_xdma_offload.c:711-740 | the decoder splits Zc into the set index, its factor z_a and z_j, the number of factors of two in Zc / z_a |
| XdmaOffload.TwoExponentOfPow | openair1/PHY/CODING/nrLDPC_coding/nrLDPC_coding_xdma/nrLDPC_coding_xdma_offload.c:736-740 | the halving loop counts exactly j on 2^j |
| XdmaOffload.LiftingRecovered | openair1/PHY/CODING/nrLDPC_coding/nrLDPC_coding_xdma/nrLDPC_coding_xdma_offload.c:711-740 | for every lifting size a 2^j of TS 38.212 Table 5.3.2-1 the decoder recovers a and j, so z_a << z_j rebuilds Zc |
| XdmaOffload.InfoColumns | openair1/PHY/CODING/nrLDPC_coding/nrLDPC_coding_xdma/nrLDPC_coding_xdma_offload.c:233-242 | kb is 22 exactly for the first base graph and 10, 9, 8 or 6 otherwise |
| XdmaOffload.UnpackCtrl | openair1/PHY/CODING/nrLDPC_coding/nrLDPC_coding_xdma/nrLDPC_coding_xdma_offload.c:245 | a word below 2^32 reads back as fields that fit their widths |
| XdmaOffload.CtrlRoundTrip | openair1/PHY/CODING/nrLDPC_coding/nrLDPC_coding_xdma/nrLDPC_coding_xdma_offload.c:245 | fields that fit their widths come back unchanged from a 32-bit control word |
| XdmaOffload.DecoderCtrlFields | openair1/PHY/CODING/nrLDPC_coding/nrLDPC_coding_xdma/nrLDPC_coding_xdma_offload.c:426-427 | the decoder's control word carries the parity rows, the code-block count, the base graph, 8 iterations, set index 12, and a set and exponent that rebuild Zc |
| XdmaOffload.DecoderRows | openair1/PHY/CODING/nrLDPC_coding/nrLDPC_coding_xdma/nrLDPC_coding_xdma_offload.c:742-747 | the decoder's mb minus kb is the number of parity rows |
| XdmaOffload.SmallExponent | openair1/PHY/CODING/nrLDPC_coding/nrLDPC_coding_xdma/nrLDPC_coding_xdma_offload.c:736-740 | the exponent of a lifting size fits the 3-bit z_j field |
| XdmaOffload.EncoderCtrlFields | openair1/PHY/CODING/nrLDPC_coding/nrLDPC_coding_xdma/nrLDPC_coding_xdma_offload.c:245 | the encoder's control word carries kb_1 as the rows field, the code-block count, the base graph, the set and the exponent, and no iteration or set-index field |
| XdmaOffload.RoundUpIsCeil | openair1/PHY/CODING/nrLDPC_coding/nrLDPC_coding_xdma/nrLDPC_coding_xdma_offload.c:438-449 | rounding up gives the next multiple, less than one multiple above |
| XdmaOffload.EncoderWordsAreBeats | openair1/PHY/CODING/nrLDPC_coding/nrLDPC_coding_xdma/nrLDPC_coding_xdma_offload.c:250-253 | the encoder transfers four 32-bit words per started 128-bit beat |
| XdmaOffload.EncoderTransferCovers | openair1/PHY/CODING/nrLDPC_coding/nrLDPC_coding_xdma/nrLDPC_coding_xdma_offload.c:246-255 | each code block gets a 16-byte-aligned slot that holds its bits with less than one beat of slack |
| XdmaOffload.Align32Bounds | openair1/PHY/CODING/nrLDPC_coding/nrLDPC_coding_xdma/nrLDPC_coding_xdma_offload.c:448-449 | aligning to 32 bytes gives the next multiple of 32 |
| XdmaOffload.DecoderWriteCovers | openair1/PHY/CODING/nrLDPC_coding/nrLDPC_coding_xdma/nrLDPC_coding_xdma_offload.c:539-553 | the decoder's write is 32-byte aligned and holds every LLR byte of every block |
| XdmaOffload.DecoderReadCovers | openair1/PHY/CODING/nrLDPC_coding/nrLDPC_coding_xdma/nrLDPC_coding_xdma_offload.c:429-452 | the decoder's read is 32-byte aligned and holds every output bit of every block |
| XdmaOffload.CbOffsetRounds | openair1/PHY/CODING/nrLDPC_coding/nrLDPC_coding_xdma/nrLDPC_coding_xdma_offload.c:755-766 | a code-block offset is 16 bytes per started 128-bit beat: aligned, large enough for the block, with less than one beat of slack |
| XdmaJobs.SegmentSpan | openair1/PHY/CODING/nrLDPC_coding/nrLDPC_coding_xdma/nrLDPC_coding_xdma.c:252-256 | a job takes the ceiling of the remaining segments over the threads left, at least one and at most what remains, and all of it for the last thread |
| XdmaJobs.SpanMaxIsCeil | openair1/PHY/CODING/nrLDPC_coding/nrLDPC_coding_xdma/nrLDPC_coding_xdma.c:218-220 | the quotient plus one for a remainder is the ceiling |
| XdmaJobs.SpanLeavesEnough | openair1/PHY/CODING/nrLDPC_coding/nrLDPC_coding_xdma/nrLDPC_coding_xdma.c:216-228 | with k threads left and at least k segments a job leaves one segment for each other thread |
| XdmaJobs.JobCountIsMin | openair1/PHY/CODING/nrLDPC_coding/nrLDPC_coding_xdma/nrLDPC_coding_xdma.c:212-228 | the counting loop counts min(C, num_threads_prepare_max) jobs |
| XdmaJobs.TilesCover | openair1/PHY/CODING/nrLDPC_coding/nrLDPC_coding_xdma/nrLDPC_coding_xdma.c:236-273 | every segment of the range is in some job, and only those |
| XdmaJobs.TilesOrdered | openair1/PHY/CODING/nrLDPC_coding/nrLDPC_coding_xdma/nrLDPC_coding_xdma.c:236-273 | a later job starts at or after the end of an earlier one |
| XdmaJobs.TilesDisjoint | openair1/PHY/CODING/nrLDPC_coding/nrLDPC_coding_xdma/nrLDPC_coding_xdma.c:236-273 | no segment is in two jobs |
| XdmaJobs.PrepareJobs | openair1/PHY/CODING/nrLDPC_coding/nrLDPC_coding_xdma/nrLDPC_coding_xdma.c:236-273 | the job loop produces jobs that tile [0, C), as many as the counting loop counted and at most num_threads_prepare_max |
| XdmaJobs.PlanFacts | openair1/PHY/CODING/nrLDPC_coding/nrLDPC_coding_xdma/nrLDPC_coding_xdma.c:212-278 | the whole plan tiles [0, C) with min(C, num_threads_prepare_max) jobs, so the job count check holds |
| XdmaJobs.AsWrittenFailsWithManySegments | openair1/PHY/CODING/nrLDPC_coding/nrLDPC_coding_xdma/nrLDPC_coding_xdma.c:252-256 | as written, the divisor counts threads from the first loop, so with at least as many segments as prepare threads it reaches zero |
| XdmaJobs.AsWrittenMiscountsJobs | openair1/PHY/CODING/nrLDPC_coding/nrLDPC_coding_xdma/nrLDPC_coding_xdma.c:243-278 | as written, five segments on eight threads make four jobs where the first loop counted five, and the job count check fails |
| XdmaJobs.AsWrittenAgreesWithFewSegments | openair1/PHY/CODING/nrLDPC_coding/nrLDPC_coding_xdma/nrLDPC_coding_xdma.c:212-278 | as written, the setup is right when the segments fill at most half the prepare threads |
| XdmaJobs.OffsetsAgreeWithOffload | openair1/PHY/CODING/nrLDPC_coding/nrLDPC_coding_xdma/nrLDPC_coding_xdma.c:149-181 | decoder_xdma's input and output offsets are those the offload recomputes, each a 16-byte-aligned slot that holds one block |
| XdmaJobs.SegmentDecoded | openair1/PHY/CODING/nrLDPC_coding/nrLDPC_coding_xdma/nrLDPC_coding_xdma.c:305-319 | a segment decodes exactly when its CRC passes and at least two iterations are allowed |
| XdmaJobs.SegmentResults | openair1/PHY/CODING/nrLDPC_coding/nrLDPC_coding_xdma/nrLDPC_coding_xdma.c:299-323 | the results give one verdict per segment |
| XdmaJobs.SegmentResultsAsWritten | openair1/PHY/CODING/nrLDPC_coding/nrLDPC_coding_xdma/nrLDPC_coding_xdma.c:299-323 | the as-written results give one verdict per segment |
| XdmaJobs.ProcessSegments | openair1/PHY/CODING/nrLDPC_coding/nrLDPC_coding_xdma/nrLDPC_coding_xdma.c:299-323 | the decode loop's processedSegments counts the segments whose decodeSuccess is set |
| XdmaJobs.ProcessedCountsCrcPasses | openair1/PHY/CODING/nrLDPC_coding/nrLDPC_coding_xdma/nrLDPC_coding_xdma.c:299-323 | processedSegments is the number of segments whose CRC passed, or 0 when fewer than two iterations are allowed |
| XdmaJobs.AsWrittenTakesFirstSegmentCrc | openair1/PHY/CODING/nrLDPC_coding/nrLDPC_coding_xdma/nrLDPC_coding_xdma.c:305 | as written, the CRC is checked at the start of the output buffer, so a corrupt segment after a good first one counts as decoded |
| XdmaJobs.AsWrittenAllOrNothing | openair1/PHY/CODING/nrLDPC_coding/nrLDPC_coding_xdma/nrLDPC_coding_xdma.c:299-323 | as written, either every segment decodes or none does |
| Modulation.BitsValue | openair1/PHY/MODULATION/nr_modulation.c:122 | a group of m bits is a value below 2^m, the mask of the table lookup |
| Modulation.ValueBitsOfBitsValue | openair1/PHY/MODULATION/nr_modulation.c:122-243 | the bits of a group's value are the group again |
| Modulation.SymbolIndices | openair1/PHY/MODULATION/nr_modulation.c:120-247 | the corrected mapping (the code's for every order but 64QAM with a bit count that is not a multiple of 12): an order outside {2, 4, 6, 8} aborts; otherwise one index per full group of m bits, each addressing the 2^m-entry constellation table |
| Modulation.IndexOfSymbol | openair1/PHY/MODULATION/nr_modulation.c:120-247 | in the corrected mapping, symbol k's table index is the value of bits m k to m k + m - 1 |
| Modulation.Unpack | openair1/PHY/MODULATION/nr_modulation.c:120-247 | reading indices back as bits gives m bits per index |
| Modulation.IndicesRoundTrip | openair1/PHY/MODULATION/nr_modulation.c:120-247 | reading the corrected mapping's indices back as bits gives every bit that was mapped |
| Modulation.PairLookup | openair1/PHY/MODULATION/nr_modulation.c:179-216 | one lookup of the 4096-entry 64QAM table writes two symbols |
| Modulation.Mod64AsWritten | openair1/PHY/MODULATION/nr_modulation.c:176-234 | the code's 64QAM path writes four symbols per whole 24 bits, as two table lookups of 12 bits each, and two more symbols from one lookup of the next 12 bits of memory when bits remain |
| Modulation.SymbolIndicesAsWritten | openair1/PHY/MODULATION/nr_modulation.c:120-247 | the code's mapping aborts exactly for an unsupported order, and for every order but 64QAM writes one index per full group |
| Modulation.IndicesPair | openair1/PHY/MODULATION/nr_modulation.c:179-182 | twelve bits map to the two symbols their single table lookup gives |
| Modulation.Mod64AgreesOnWholePairs | openair1/PHY/MODULATION/nr_modulation.c:176-234 | for a bit count that is a multiple of 12 the code's 64QAM path writes exactly the corrected symbols |
| Modulation.AsWrittenMod64DropsLastSymbol | openair1/PHY/MODULATION/nr_modulation.c:229-234 | with 18 bits past the last whole 24 the code writes every corrected symbol but the last |
| Modulation.AsWrittenMod64WritesPastEnd | openair1/PHY/MODULATION/nr_modulation.c:229-234 | with 6 bits past the last whole 24 the code writes every corrected symbol plus one more built from the 6 bits of memory after the input |
| Modulation.SymbolIndicesAgree | openair1/PHY/MODULATION/nr_modulation.c:120-247 | the code's and the corrected mapping agree for every order but 64QAM, and for 64QAM whenever the bit count is a multiple of 12 |
| Modulation.Deal | openair1/PHY/MODULATION/nr_modulation.c:303-306 | the scalar loop's result has one layer per layer count, each as long as the number of passes |
| Modulation.DealAt | openair1/PHY/MODULATION/nr_modulation.c:303-306 | after the loop, layer l, position g holds symbol n_layers g + l |
| Modulation.LayerMapping | openair1/PHY/MODULATION/nr_modulation.c:249-561 | 1 to 4 layers each receive ceil(n_symbs / n_layers) symbols; any other layer count, 5 to 8 included, aborts |
| Modulation.LayerMappingPlaces | openair1/PHY/MODULATION/nr_modulation.c:249-561 | layer l, position g holds symbol n_layers g + l |
| Modulation.Interleave | openair1/PHY/MODULATION/nr_modulation.c:249-561 | reading the layers back round-robin gives n_layers entries per pass |
| Modulation.DealInterleave | openair1/PHY/MODULATION/nr_modulation.c:303-306 | interleaving the dealt layers gives back the codeword's symbols |
| Modulation.LayerMappingInverse | openair1/PHY/MODULATION/nr_modulation.c:249-561 | layer mapping is a permutation: reading the layers back round-robin restores the padded codeword |
| Modulation.NeonLayerMapping4AsWritten | openair1/PHY/MODULATION/nr_modulation.c:481-494 | the aarch64 four-layer path gives four layers of ceil(n_symbs / 4) symbols |
| Modulation.AsWrittenNeonRepeatsLayers | openair1/PHY/MODULATION/nr_modulation.c:481-494 | on aarch64 layer 2 repeats symbol 4g for every full group, so whenever symbols 0 and 2 differ the result is not the scalar layer mapping |
| Modulation.UeLayer | openair1/PHY/MODULATION/nr_modulation.c:565-567 | the inner loop fills layer l with symbols n_layers i + l scaled by AMP |
| Modulation.UeLayerMapping | openair1/PHY/MODULATION/nr_modulation.c:563-570 | the UE mapping gives every layer n_symbs symbols, layer l position i being symbol n_layers i + l scaled by AMP, for any number of layers |
| Modulation.UeMappingIsScaledLayerMapping | openair1/PHY/MODULATION/nr_modulation.c:563-570 | for 1 to 4 layers the UE mapping is the gNB layer mapping of n_layers n_symbs symbols, scaled |
| Modulation.Weight | openair1/PHY/MODULATION/nr_modulation.c:688-710 | every matrix entry weighs 0, a sign or a sign times j |
| Modulation.TimesWeight | openair1/PHY/MODULATION/nr_modulation.c:688-710 | the Gaussian product with '0', '1', 'n', 'j' and 'o' is 0, +x, -x, j x and -j x |
| Modulation.PrecodeStepAdds | openair1/PHY/MODULATION/nr_modulation.c:688-710 | each case of the switch adds weight times sample to the accumulator, narrowed to int16 |
| Modulation.PrecoderIsWeightedSum | openair1/PHY/MODULATION/nr_modulation.c:683-717 | the precoder's output is the weighted sum of the layers' samples, narrowed to int16 |

## Left out

- FapiP7Message.PackMessage: packs each group's PduIdx in one byte, the width the unpacker reads, where `nr_fapi_p7.c` pushes 32 bits. The as-written packing is FapiDlTtiRequestCodec.PackRequestAsWritten (see Findings).
- F1apSetup.EncodeRequest: through F1apSetup.RrcIe it sends the corrected RRC-version octet F1apSetup.RrcVersionOctet, not the always-zero value of the code (see Findings).
- MacTables.UlPortsConfig: takes the DMRS port bitmap from MacTables.UlDmrsPorts (one bit per listed port), not the code's packBits over the port list (see Findings).
- RaProcedures.SelectRaType: tests the PDCCH order with the corrected RaProcedures.OrderSignalsPreamble, not the code's test against 0xb000000 (see Findings).
- RaProcedures.InitRa: chooses the access type through RaProcedures.SelectRaType, and so uses the corrected PDCCH-order test; its response window is the code's, RaProcedures.WindowSlotsAsWritten.
- RaProcedures.ChoosePreamble: picks the PDCCH order's preamble through the corrected RaProcedures.OrderSignalsPreamble, where the code at nr_ra_procedures.c line 359 tests against 0xb000000 (see Findings).
- RaProcedures.ConfigureRaPreamble: sets the new-SSB flag with the corrected RaProcedures.NewSsb, not the code's comparison of the SSB index with its own ordinal (see Findings).
- RaValues.SelectPreambleGroup: uses the group-B power test RaValues.UseGroupB, without the 32-bit wrap of a minus-infinity threshold (see Findings).
- RateMatching.RateMatchTx: the uint32 wrap of 3*Tbslbrm and of k0 is not modelled. The circular-buffer length and k0 are unbounded integers.
- RateMatching.RateMatchTx: requires FillerInside when the configuration is not rejected. The filler range must end inside Ncb and leave at least one coded bit (F < Ncb). Without such a bit the receiver's repetition loop never ends and the transmitter reads past Ncb. The code does not check it.
- RateMatching.RepetitionPassAsWritten: modelled only to exhibit the out-of-buffer read; the model keeps RateMatching.SelectRepetitions.
- The push/pull primitives of the nFAPI library are not part of this model. FapiWire states them as big-endian byte sequences.
- pack_dci_payload and unpack_dci_payload are a raw copy of the payload bytes.
- FAPI vendor extensions are not modelled.
- check_nr_fapi_unpack_length is a boolean parameter.
- The nFAPI socket transport is left out.
- Header constants the C code includes but that are not part of this model are fixed as follows:
  - NR_DOWNLINK_SLOT 1, NR_UPLINK_SLOT 2, NR_MIXED_SLOT 3;
  - MAX_FRAME_NUMBER 1024.
- The following are parameters: NR_MAX_NB_LAYERS, NR_TDD_SET_ALL_SYMBOLS, FAPI_NR_UL_CONFIG_LIST_NUM, NR_MAX_NUM_LCID, GET_DURATION_RX_TO_TX and the BSR tables.
- get_slot_idx_in_period is slot modulo the slots per period.
- Codebook.InitDlMimoCodebook: the four nested loops over beam and co-phasing indices are flattened into one loop over their combinations. The floating-point precoding weights are not modelled, only which entries are written and with what index, layer count and port count.
- SL_to_bitmap, the c16 complex helpers, nr_mod_table.h and dB_fixed are not part of this model. Table entries are inputs.
- Randomness: the rand_r draws of the random-access procedure are parameters.
- Clocks, threading, mutexes and the UE and gNB main loops are left out. Only the single-call logic is modelled.
- CSI: channel estimation, noise estimation and the condition numbers of the rank test are inputs, not computed. Floating-point SINR is an integer input.
- NAS: the KDF, HMAC-SHA-256 and the integrity and ciphering algorithms are parameters. Their outputs are byte sequences given to the model.
- NasMessages.SetRegistrationType: periodic updating (T3512 in idle) and the RRC-inactive case give a reserved value, as in the code.
- NasMessages.EncodeSnssai: INT24_TO_BUFFER is not part of this model and is taken to write the SD big-endian.
- NAS: the rest of the PDU session and registration message encoding (DNN, containers, capability IEs) is left out.
- F1AP: eq_f1ap_cell_info and eq_f1ap_sys_info are not part of this model and are taken as value equality.
- F1AP: PLMN and cell-identity coding are abstracted to integers.
- F1AP: the encoder sends no slice list, so the round trip clears it.
- F1AP: ASN.1 PER coding and the TBCD packing of PLMN identities are not modelled. An encoded value is carried unchanged in a list of information elements.
- TddPatterns.SetTddBmapPeriod: the slot counts, the span and the start slot are unbounded, where set_tdd_bmap_period (config.c lines 295-304) holds nrofDownlinkSlots, nrofUplinkSlots, total_slot and curr_total_slot in int8_t and returns the span as uint8_t. The model is the code only for patterns, and pattern pairs, below 128 slots. A longer pattern, which numerologies above 3 allow, wraps to a negative count in the code; the loop then writes no entry or writes before the bitmap, which is not modelled.
- TddPatterns.ConfigTddPatterns: lays out both patterns through SetTddBmapPeriod, so the same 128-slot bound applies.
- Modulation: nr_dft, symbol rotation, timeshift and precoder_cm/simd are left out, since they are floating-point and SIMD code.
- Modulation: every SIMD layer-mapping path other than the aarch64 four-layer one is left out; the scalar mapping stands for them.
- Modulation: layer counts 5 to 8 reach the abort at the end of the layer-mapping switch and are Fatal in the model.
- Modulation.SymbolIndices: the mapping the rest of the model uses is the corrected one. For 64QAM with a bit count that is not a multiple of 12 the code's output is Modulation.Mod64AsWritten instead (see Findings).
- Modulation.IndexOfSymbol: states the table index of each symbol of the corrected mapping, which the code writes only for 64QAM bit counts that are a multiple of 12 (Modulation.SymbolIndicesAgree).
- Modulation.IndicesRoundTrip: the round trip holds for the corrected mapping. The code's 64QAM path drops the last symbol when the bit count is 18 mod 24 and adds one from the memory after the input when it is 6 mod 24.
- Telnet: get_stats, stop_modem, start_modem, remove_mac_ues and the softmodem side effects of the commands are left out.
- Telnet: the output text of the commands is left out.
- Telnet: PRBalloc_to_locationandbandwidth0 is modelled as the RIV of TS 38.214 section 5.1.2.2.2.
- BCH: beam allocation, encode_MIB_NR's ASN.1 encoding, type-0 PDCCH and SIB1 scheduling are left out.
- BCH: the 240 kHz AssertFatal is also left out.
- BchScheduler.MibPayload: reads MIB_pdu (gNB_scheduler_bch.c line 146) as a little-endian word, the byte order of the hosts the code is built for; a big-endian host is not modelled. The burst bitmap is read byte by byte, most significant bit first, as BchScheduler.BurstBytesRoundTrip states.
- BCH: get_ssb_start_symbol is a parameter.
- XdmaOffload.DecoderLifting: requires Zc >= 2. For smaller lifting sizes the code's loop does not end, because Zc / z_a is 0.
- XdmaOffload.CtrlWord: the control word's bitwise OR of disjoint fields is modelled as a sum.
- XdmaOffload.CtrlRoundTrip: holds only for fields within their widths (FieldsFit). The code-block id field overflows into the neighbouring field when cbNum is 32 or more; that overflow is not modelled.
- The uint32 DMA sizes of XdmaOffload are unbounded integers.
- XdmaJobs.PrepareJobs: a negative num_threads_prepare_max is not modelled.
- xdma: prepare_blocks, the DMA and mmap I/O, test_dma_init, dma_reset, the numChannelLls bookkeeping and the aggregation of job outputs are left out.

## Findings

| source | as written | input that shows it | evidently intended | confidence | as-written member | corrected member |
|---|---|---|---|---|---|---|
| nfapi/open-nFAPI/fapi/src/nr_fapi_p7.c:394 | the DL_TTI.request packer pushes each PduIdx as 32 bits, but the unpacker at line 624 pulls 8 | one group with one UE whose PduIdx is 5: it reads back as 0, and three bytes are left over after the request | pack and unpack use the same width | high, not executed | FapiDlTtiRequestCodec.PackRequestAsWritten, FapiDlTtiRequestCodec.AsWrittenLosesPduIdx | FapiDlTtiRequestCodec.PackRequest, FapiDlTtiRequestCodec.PullRequestPacked, FapiDlTtiRequestCodec.CorrectedKeepsPduIdx |
| openair1/SCHED_NR/phy_frame_config_nr.c:396-440 | in do_tdd_config_sim the UL loop starts at slot num_ul_slots instead of numb_slots_period - num_ul_slots | 30 kHz, 5 ms period, 7 DL and 2 UL slots: slot 2, one of the 7 DL slots, ends up UL | DL slots first, then the mixed slot, then the UL slots at the end of the period | high, not executed | PhyFrameConfig.SimBitmapAsWritten, PhyFrameConfig.AsWrittenSimOverwritesDownlink, PhyFrameConfig.DoTddConfigSim | PhyFrameConfig.SimBitmap, PhyFrameConfig.SimBitmapLayout, PhyFrameConfig.SimBitmapCounts, PhyFrameConfig.DoTddConfigSimCorrected |
| openair2/LAYER2/NR_MAC_UE/nr_ue_scheduler.c:268-271 | remove_ul_config_last_item decrements the pointer privateNBpdus, not the number_pdus counter it points to | a PDU added by lockGet_ul_config whose configuration then fails stays in the list | the counter is decremented: the failed PDU is removed and the list restored | medium, not executed | UeScheduler.RemoveUlConfigLastItemAsWritten, UeScheduler.AsWrittenRemoveKeepsFailedPdu | UeScheduler.RemoveUlConfigLastItem, UeScheduler.AddThenRemoveRestores |
| openair2/LAYER2/NR_MAC_UE/nr_ue_scheduler.c:1051 | the SRS frame is frame + (slot + slot_offset / n_slots_frame) % MAX_FRAME_NUMBER | frame 0, slot 5, offset 3, 20 slots per frame: frame 5 where slot 8 of frame 0 is meant; frame 1023 gives 1024 | (frame + (slot + slot_offset) / n_slots_frame) % MAX_FRAME_NUMBER | high, not executed | UeScheduler.SrsFrameAsWritten, UeScheduler.AsWrittenSrsFrameSkipsAhead, UeScheduler.AsWrittenSrsFrameOutOfRange, UeScheduler.AperiodicSrsTime, UeScheduler.AsWrittenSrsTimeSkipsAhead | UeScheduler.SrsFrame, UeScheduler.SrsTimeIsAdvance, UeScheduler.CorrectedSrsTime, UeScheduler.CorrectedSrsTimeIsAdvance |
| openair2/LAYER2/NR_MAC_UE/nr_ue_scheduler.c:1919-1933 | configure_csi_resource_mapping computes the room left in the BWP in uint32, which wraps when the band starts past the BWP's end | band at RB 100 of 24 RBs, BWP of 24 RBs at RB 0: accepted as RBs 100 to 123 | the band clipped to the BWP, and rejected when fewer than 24 RBs remain | high, not executed | UeScheduler.CsiRbsAsWritten, UeScheduler.AsWrittenCsiRbsAcceptsOutsideBand | UeScheduler.ConfigureCsiRbs, UeScheduler.CsiRbsAgreeInsideBwp |
| openair2/LAYER2/NR_MAC_UE/mac_tables.c:544-557 | the UL DMRS port bitmap is packBits over the list of port numbers, which treats each port number as a bit value | rank 2, row 0 of Table 7.3.1.1.2-13 of TS 38.212 (ports 0 and 1): bitmap 2, port 1 only | one bit set per listed port: bitmap 3 | high, not executed | MacTables.UlDmrsPortsAsWritten, MacTables.AsWrittenUlPortsDropPort | MacTables.UlDmrsPorts, MacTables.SinglePortAgrees |
| openair2/LAYER2/NR_MAC_UE/nr_ra_procedures.c:662 | the msgB response window sl2560 is 2590 slots, and sl320 (line 701) is 360 | sl2560 at 960 kHz (640 slots per frame) and sl320 at 120 kHz: both fail the 40 ms bound | 2560 and 320 slots, as TS 38.331 names them | high, not executed | RaProcedures.WindowTableAsWritten, RaProcedures.AsWrittenMsgBRejectsSl2560, RaProcedures.AsWrittenMsgBRejectsSl320 | RaProcedures.WindowTable, RaProcedures.WindowTablesDiffer |
| openair2/LAYER2/NR_MAC_UE/nr_ra_procedures.c:746-778 | the 4-step window ignores ra-ResponseWindow-v1610 and v1700 | ra-ResponseWindow sl80 with v1610 sl60: the UE waits 80 slots | the extension field replaces the base field when present (TS 38.331) | medium, not executed | RaProcedures.WindowSlotsAsWritten, RaProcedures.AsWrittenRarIgnoresV1610, RaProcedures.AsWrittenRarWindowIsBase, RaProcedures.InitRa | RaProcedures.WindowSlots, RaProcedures.WindowSlotsAgreeOnBaseFields |
| openair2/LAYER2/NR_MAC_UE/nr_ra_procedures.c:947 | here and at line 359, an active PDCCH order is contention-free unless its 6-bit preamble index equals 0xb000000, which it never can | an active order with preamble index 0 is taken as contention-free with preamble 0 | index 0 means contention-based access (TS 38.212 section 7.3.1.2.1) | high, not executed | RaProcedures.OrderSignalsPreambleAsWritten, RaProcedures.AsWrittenOrderZeroIsContentionFree, RaProcedures.AsWrittenOrderIgnoresIndex | RaProcedures.OrderSignalsPreamble, RaProcedures.SelectRaType |
| openair2/LAYER2/NR_MAC_UE/nr_ra_procedures.c:136 | a minus-infinity messagePowerOffsetGroupB is INT_MIN, and the threshold at lines 165-191 subtracts it in int, which wraps | PCMAX 23 dBm, target -110 dBm, no msg3-DeltaPreamble, pathloss 80 dB, Msg3 larger than group A allows: group B is not chosen | minus infinity makes the power condition always hold (TS 38.321 section 5.1.2) | high, not executed | RaValues.UseGroupBAsWritten, RaValues.AsWrittenMinusInfinityBlocksGroupB | RaValues.UseGroupB, RaValues.UseGroupBAgreesWhenFinite, RaValues.SelectPreambleGroup |
| openair2/LAYER2/NR_MAC_UE/nr_ra_procedures.c:278-347 | the group-B draw range is min(preambles per SSB, total - group A), offset by the group-A count, so it can reach past the SSB's preambles | 64 preambles, 32 per SSB, 16 in group A, draw 20: preamble 36, outside the SSB's 32 | the draw is taken over the SSB's group-B preambles, min(preambles per SSB, total) - group A, so it stays inside the SSB's range | medium, not executed | RaValues.PreambleIndexAsWritten, RaValues.AsWrittenGroupBLeavesSsbPreambles | RaValues.PreambleIndex, RaValues.PreambleIndexAgreesOutsideGroupB |
| openair2/LAYER2/NR_MAC_UE/nr_ra_procedures.c:416 | new_ssb compares the selected SSB's index with its own ordinal, not with the SSB of the previous attempt | only SSB 1 transmitted, retransmission on it: flagged as a new SSB, so the power does not ramp | compare the new ordinal with the previous attempt's ra_ssb: same SSB, so the ramping counter increments (TS 38.321 section 5.1.3) | medium, not executed | RaProcedures.NewSsbAsWritten, RaProcedures.AsWrittenNewSsbBlocksRamping | RaProcedures.NewSsb, RaProcedures.ConfigureRaPreamble |
| openair1/PHY/NR_UE_TRANSPORT/csi_rx.c:122-168 | rows 15 and 18 (CDM8, FD2-TD4) list symbols l0 to l0+2 | row 15, symbol l0+3: not taken as a CSI-RS symbol | l0 to l0+3, as Table 7.4.1.5.3-1 of TS 38.211 gives | high, not executed | CsiRx.CsiRsInSymbolAsWritten, CsiRx.AsWrittenCdm8MissesFourthSymbol | CsiRx.CsiRsInSymbol, CsiRx.CsiRsInSymbolExtendsAsWritten |
| openair1/PHY/NR_UE_TRANSPORT/csi_rx.c:260 | the square of a sample is computed in int | one sample of 46341 among six RBs, density 2: 2445753632 where 298269984 is exact | the square and the sum are computed without overflow | medium, not executed | CsiRx.CalcPowerCsirsAsWritten, CsiRx.AsWrittenPowerOverflows | CsiRx.CalcPowerCsirs, CsiRx.AsWrittenPowerAgreesBelowOverflow |
| openair2/F1AP/lib/f1ap_interface_management.c:321-330 | the three version flags go to bits 0 to 2 of the octet, but with bits_unused 5 the BIT STRING is its bits 7 to 5 | rrc_ver 17.3.0: the 3-bit value sent is 000 | the flags in the three used bits | high, not executed | F1apSetup.RrcVersionOctetAsWritten, F1apSetup.AsWrittenRrcVersionIsZero | F1apSetup.RrcVersionOctet |
| openair1/PHY/MODULATION/nr_modulation.c:481-494 | the aarch64 four-layer mapping stores layers 0 and 1 again into layers 2 and 3 | any input whose symbols 0 and 2 differ: layer 2 gets symbol 0 | layer l gets symbol 4g + l (TS 38.211 Table 7.3.1.3-1) | medium, not executed | Modulation.NeonLayerMapping4AsWritten, Modulation.AsWrittenNeonRepeatsLayers | Modulation.LayerMapping, Modulation.LayerMappingPlaces, Modulation.LayerMappingInverse |
| openair1/PHY/MODULATION/nr_modulation.c:229-234 | after the whole 24-bit chunks, any remaining bits get one lookup of 12 bits, which writes two 64QAM symbols | 18 bits: only two of the three symbols are written; 6 bits: two symbols are written, the second from 6 bits of memory after the input | one symbol per remaining group of 6 bits | medium, not executed | Modulation.Mod64AsWritten, Modulation.SymbolIndicesAsWritten, Modulation.AsWrittenMod64DropsLastSymbol, Modulation.AsWrittenMod64WritesPastEnd | Modulation.SymbolIndices, Modulation.IndexOfSymbol, Modulation.IndicesRoundTrip |
| common/utils/telnetsrv/telnetsrv_o1.c:216-221 | after sscanf reads a value, only digits are skipped, so a leading minus sign stays | set_config with a negative SSB frequency: the read of the downlink ARFCN that follows fails | the whole number read is skipped, sign included | medium, not executed | TelnetO1.ReadLong, TelnetO1.AsWrittenStopsAfterNegative, TelnetO1.AsWrittenNegativeSsbFails | TelnetO1.ReadAllFields, TelnetO1.SetConfigReadsFields |
| openair1/PHY/CODING/nrLDPC_coding/nrLDPC_coding_xdma/nrLDPC_coding_xdma.c:252-253 | the job loop divides by num_threads_prepare_max - num_threads_prepare with the count left over from the counting loop at lines 218-219 | C 8 segments on 8 threads: division by zero; C 5 on 8 threads: 4 jobs where 5 were counted, and the DevAssert at line 278 fails | the job loop restarts the count from 0 and reproduces the counted split | high, not executed | XdmaJobs.PrepareJobsAsWritten, XdmaJobs.AsWrittenFailsWithManySegments, XdmaJobs.AsWrittenMiscountsJobs | XdmaJobs.PrepareJobs, XdmaJobs.PlanFacts, XdmaJobs.TilesCover, XdmaJobs.TilesDisjoint |
| openair1/PHY/CODING/nrLDPC_coding/nrLDPC_coding_xdma/nrLDPC_coding_xdma.c:305 | every segment's CRC is checked on multi_outdata, the first segment's output | first segment good, second corrupt: both count as decoded | each segment's CRC checked on its own output | medium, not executed | XdmaJobs.SegmentResultsAsWritten, XdmaJobs.AsWrittenTakesFirstSegmentCrc, XdmaJobs.AsWrittenAllOrNothing | XdmaJobs.SegmentResults, XdmaJobs.ProcessSegments, XdmaJobs.ProcessedCountsCrcPasses |
| openair1/PHY/CODING/nrLDPC_coding/nrLDPC_coding_segment/nr_rate_matching.c:602-605 | in the repetition pass the jump over the filler bits (ind = F + Foffset) is followed by a read of d[ind] without checking that ind is still below Ncb | BG2, Zc 1, one code block, no limited buffer, rv 0, F 49, Foffset 1, E 3: Ncb 50, reads d[50] | indices taken modulo Ncb with the filler range skipped, as in the first pass (TS 38.212 section 5.4.2.1) | low, not executed | RateMatching.RepetitionPassAsWritten, RateMatching.AsWrittenRepetitionReadsPastBuffer | RateMatching.RateMatchTx, RateMatching.SelectRepetitions, RateMatching.SelectedIndexValid |

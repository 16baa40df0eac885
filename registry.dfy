/** The native-function table `create_context` builds for the PAL4 scripts: 264
    registrations in source order, of which eleven name a handler of their own and
    the rest the shared `not_implemented` stub. */
module NativeRegistry {
  import opened Wrappers
  import opened ScriptVm

  /** The Rust function each registration boxes. */
  datatype Handler =
    | NotImplemented
    | ImmBegin
    | ImmEnd
    | NewGame
    | ArenaLoad
    | OpenMovieFlag
    | AddQuestCompletePercentage
    | ScriptMusicPause
    | ScriptMusicResume
    | Wait
    | FlashOutBlack
    | PlayMovie

  type Registration = ScriptGlobalFunction<Handler>

  /** The names registered with a handler other than `not_implemented`. */
  const IMPLEMENTED: map<string, Handler> := map[
    "giIMMBegin" := ImmBegin,
    "giIMMEnd" := ImmEnd,
    "giNewGame" := NewGame,
    "giArenaLoad" := ArenaLoad,
    "giOpenMovieFlag" := OpenMovieFlag,
    "giAddQuestComplatePercentage" := AddQuestCompletePercentage,
    "giScriptMusicPause" := ScriptMusicPause,
    "giScriptMusicResume" := ScriptMusicResume,
    "giWait" := Wait,
    "giFlashOutBlack" := FlashOutBlack,
    "giPlayMovie" := PlayMovie
  ]

  /** The handler the table must carry for `r.name`. */
  predicate Bound(r: Registration)
  {
    if r.name in IMPLEMENTED then r.handler == IMPLEMENTED[r.name] else r.handler == NotImplemented
  }


  /** scripting.rs lines 29-63. */
  const BLOCK_0: seq<Registration> := [
    ScriptGlobalFunction("giIMMBegin", ImmBegin),
    ScriptGlobalFunction("giIMMEnd", ImmEnd),
    ScriptGlobalFunction("giNewGame", NewGame),
    ScriptGlobalFunction("giCameraCtrlYPR", NotImplemented),
    ScriptGlobalFunction("giCameraCtrlDist", NotImplemented),
    ScriptGlobalFunction("giCameraCtrlYPRD", NotImplemented),
    ScriptGlobalFunction("giCameraGetDist", NotImplemented),
    ScriptGlobalFunction("giCameraGetYaw", NotImplemented),
    ScriptGlobalFunction("giCameraGetPitch", NotImplemented),
    ScriptGlobalFunction("giCameraGetRoll", NotImplemented),
    ScriptGlobalFunction("giArenaLoad", ArenaLoad)
  ]

  lemma Block0Bound()
    ensures forall i :: 0 <= i < |BLOCK_0| ==> Bound(BLOCK_0[i])
  {
  }

  /** scripting.rs lines 64-107. */
  const BLOCK_1: seq<Registration> := [
    ScriptGlobalFunction("giArenaReady", NotImplemented),
    ScriptGlobalFunction("giArenaReadyRestore", NotImplemented),
    ScriptGlobalFunction("giArenaHint", NotImplemented),
    ScriptGlobalFunction("giArenaComeFromHere", NotImplemented),
    ScriptGlobalFunction("giPlayerSetLeader", NotImplemented),
    ScriptGlobalFunction("giPlayerSetVisible", NotImplemented),
    ScriptGlobalFunction("giPlayerAttachCollision", NotImplemented),
    ScriptGlobalFunction("giPlayerDetachCollision", NotImplemented),
    ScriptGlobalFunction("giPlayerLock", NotImplemented),
    ScriptGlobalFunction("giPlayerUnLock", NotImplemented),
    ScriptGlobalFunction("giSetNpcVisible", NotImplemented)
  ]

  lemma Block1Bound()
    ensures forall i :: 0 <= i < |BLOCK_1| ==> Bound(BLOCK_1[i])
  {
  }

  /** scripting.rs lines 108-151. */
  const BLOCK_2: seq<Registration> := [
    ScriptGlobalFunction("giNpcCreate", NotImplemented),
    ScriptGlobalFunction("giNpcDelete", NotImplemented),
    ScriptGlobalFunction("giSystemExchange", NotImplemented),
    ScriptGlobalFunction("giMonsterStopPursuit", NotImplemented),
    ScriptGlobalFunction("giCameraSetMode", NotImplemented),
    ScriptGlobalFunction("giGetGoodsOpenCondition", NotImplemented),
    ScriptGlobalFunction("giNpcPauseBeh", NotImplemented),
    ScriptGlobalFunction("giNpcResumeBeh", NotImplemented),
    ScriptGlobalFunction("giOpenWeather", NotImplemented),
    ScriptGlobalFunction("giCloseWeather", NotImplemented),
    ScriptGlobalFunction("giSetMinimapExpmode", NotImplemented)
  ]

  lemma Block2Bound()
    ensures forall i :: 0 <= i < |BLOCK_2| ==> Bound(BLOCK_2[i])
  {
  }

  /** scripting.rs lines 152-195. */
  const BLOCK_3: seq<Registration> := [
    ScriptGlobalFunction("giGetRandnum", NotImplemented),
    ScriptGlobalFunction("giSetTempGameState", NotImplemented),
    ScriptGlobalFunction("giFlushTailYAngle", NotImplemented),
    ScriptGlobalFunction("giAddCombatMonster", NotImplemented),
    ScriptGlobalFunction("giConfigCombatParam", NotImplemented),
    ScriptGlobalFunction("giConfigCombatBgm", NotImplemented),
    ScriptGlobalFunction("giConfigCombatCamera", NotImplemented),
    ScriptGlobalFunction("giStartCombat", NotImplemented),
    ScriptGlobalFunction("giSetObjectVisible", NotImplemented),
    ScriptGlobalFunction("giAddProperty", NotImplemented),
    ScriptGlobalFunction("giDelProperty", NotImplemented)
  ]

  lemma Block3Bound()
    ensures forall i :: 0 <= i < |BLOCK_3| ==> Bound(BLOCK_3[i])
  {
  }

  /** scripting.rs lines 196-239. */
  const BLOCK_4: seq<Registration> := [
    ScriptGlobalFunction("giPlayerInTeam", NotImplemented),
    ScriptGlobalFunction("giPlayerOutTeam", NotImplemented),
    ScriptGlobalFunction("giGOMTouch", NotImplemented),
    ScriptGlobalFunction("giCameraSetCollide", NotImplemented),
    ScriptGlobalFunction("giCameraSeekToPlayer", NotImplemented),
    ScriptGlobalFunction("giCameraAutoSeek", NotImplemented),
    ScriptGlobalFunction("giPlayerSetAttr", NotImplemented),
    ScriptGlobalFunction("giPlayerGetLeader", NotImplemented),
    ScriptGlobalFunction("giSetPlayerLevel", NotImplemented),
    ScriptGlobalFunction("giAddPlayerEquip", NotImplemented),
    ScriptGlobalFunction("giOpenMovieFlag", OpenMovieFlag)
  ]

  lemma Block4Bound()
    ensures forall i :: 0 <= i < |BLOCK_4| ==> Bound(BLOCK_4[i])
  {
  }

  /** scripting.rs lines 240-283. */
  const BLOCK_5: seq<Registration> := [
    ScriptGlobalFunction("giAddQuestComplatePercentage", AddQuestCompletePercentage),
    ScriptGlobalFunction("giAddEquipment", NotImplemented),
    ScriptGlobalFunction("giPlayerCurrentSetVisible", NotImplemented),
    ScriptGlobalFunction("giSetFullHP", NotImplemented),
    ScriptGlobalFunction("giSetFullMP", NotImplemented),
    ScriptGlobalFunction("giGetPlayerLevel", NotImplemented),
    ScriptGlobalFunction("giGotoLogo", NotImplemented),
    ScriptGlobalFunction("giPlayerUnHoldAct", NotImplemented),
    ScriptGlobalFunction("giNpcUnHoldAct", NotImplemented),
    ScriptGlobalFunction("giCameraSetDistOptEnable", NotImplemented),
    ScriptGlobalFunction("giMonsterSetHide", NotImplemented)
  ]

  lemma Block5Bound()
    ensures forall i :: 0 <= i < |BLOCK_5| ==> Bound(BLOCK_5[i])
  {
  }

  /** scripting.rs lines 284-327. */
  const BLOCK_6: seq<Registration> := [
    ScriptGlobalFunction("giGameObjectSetResearch", NotImplemented),
    ScriptGlobalFunction("giSetPortrait", NotImplemented),
    ScriptGlobalFunction("giBGMConfigSetMusic", NotImplemented),
    ScriptGlobalFunction("giBGMConfigIsInArea", NotImplemented),
    ScriptGlobalFunction("giScriptMusicMute", NotImplemented),
    ScriptGlobalFunction("giScriptMusicPlay", NotImplemented),
    ScriptGlobalFunction("giScriptMusicStop", NotImplemented),
    ScriptGlobalFunction("giArenaMusicStop", NotImplemented),
    ScriptGlobalFunction("giWorldMapSetState", NotImplemented),
    ScriptGlobalFunction("giGetPuzzleGameResult", NotImplemented),
    ScriptGlobalFunction("giAlwaysJump", NotImplemented)
  ]

  lemma Block6Bound()
    ensures forall i :: 0 <= i < |BLOCK_6| ==> Bound(BLOCK_6[i])
  {
  }

  /** scripting.rs lines 328-371. */
  const BLOCK_7: seq<Registration> := [
    ScriptGlobalFunction("gi2DSoundPlay", NotImplemented),
    ScriptGlobalFunction("gi2DSoundStop", NotImplemented),
    ScriptGlobalFunction("gi2DSoundStopID", NotImplemented),
    ScriptGlobalFunction("giCGEffPlay", NotImplemented),
    ScriptGlobalFunction("giCGEffStop", NotImplemented),
    ScriptGlobalFunction("giEffectPlay", NotImplemented),
    ScriptGlobalFunction("giEffectPlayWithPlayer", NotImplemented),
    ScriptGlobalFunction("giEffectPlayWithCurrentPlayer", NotImplemented),
    ScriptGlobalFunction("giEffectPlayWithNPC", NotImplemented),
    ScriptGlobalFunction("giEffectPlayWithOBJ", NotImplemented),
    ScriptGlobalFunction("giEffectStopWithOBJ", NotImplemented)
  ]

  lemma Block7Bound()
    ensures forall i :: 0 <= i < |BLOCK_7| ==> Bound(BLOCK_7[i])
  {
  }

  /** scripting.rs lines 372-415. */
  const BLOCK_8: seq<Registration> := [
    ScriptGlobalFunction("giShowHint", NotImplemented),
    ScriptGlobalFunction("giPlayerAddSkill", NotImplemented),
    ScriptGlobalFunction("giMonsterSetVisible", NotImplemented),
    ScriptGlobalFunction("giPlayerRandomPosition", NotImplemented),
    ScriptGlobalFunction("giPlayerCurrentRandomPosition", NotImplemented),
    ScriptGlobalFunction("giEventVolumeVisible", NotImplemented),
    ScriptGlobalFunction("giAllPlayerGarb2", NotImplemented),
    ScriptGlobalFunction("giPlayerGarb2", NotImplemented),
    ScriptGlobalFunction("giAllPlayerGarb1", NotImplemented),
    ScriptGlobalFunction("giPlayerGarb1", NotImplemented),
    ScriptGlobalFunction("giGetVisibleObject", NotImplemented)
  ]

  lemma Block8Bound()
    ensures forall i :: 0 <= i < |BLOCK_8| ==> Bound(BLOCK_8[i])
  {
  }

  /** scripting.rs lines 416-459. */
  const BLOCK_9: seq<Registration> := [
    ScriptGlobalFunction("giGetVisibleMonster", NotImplemented),
    ScriptGlobalFunction("giCheckPackProperty", NotImplemented),
    ScriptGlobalFunction("giGrantSystemUi", NotImplemented),
    ScriptGlobalFunction("giOpenSystemUi", NotImplemented),
    ScriptGlobalFunction("giGrantSmithSystem", NotImplemented),
    ScriptGlobalFunction("giGrantMagicSystem", NotImplemented),
    ScriptGlobalFunction("giCheckMagicMastered", NotImplemented),
    ScriptGlobalFunction("giSelectDialogAddItem", NotImplemented),
    ScriptGlobalFunction("giSelectDialogGetLastSelect", NotImplemented),
    ScriptGlobalFunction("giGOBAttachToPlayer", NotImplemented),
    ScriptGlobalFunction("giGOBAttachToCurrentPlayer", NotImplemented)
  ]

  lemma Block9Bound()
    ensures forall i :: 0 <= i < |BLOCK_9| ==> Bound(BLOCK_9[i])
  {
  }

  /** scripting.rs lines 460-503. */
  const BLOCK_10: seq<Registration> := [
    ScriptGlobalFunction("giGOBDetachFromPlayer", NotImplemented),
    ScriptGlobalFunction("giGOBDetachFromCurrentPlayer", NotImplemented),
    ScriptGlobalFunction("giEffectAttachToPlayer", NotImplemented),
    ScriptGlobalFunction("giEffectAttachToCurrentPlayer", NotImplemented),
    ScriptGlobalFunction("giEffectDetachFromPlayer", NotImplemented),
    ScriptGlobalFunction("giEffectDetachFromCurrentPlayer", NotImplemented),
    ScriptGlobalFunction("giEffectAttachToNpc", NotImplemented),
    ScriptGlobalFunction("giEffectDetachFromNpc", NotImplemented),
    ScriptGlobalFunction("giGOBAttachToNpc", NotImplemented),
    ScriptGlobalFunction("giGOBDetachFromNPC", NotImplemented),
    ScriptGlobalFunction("giGOBSetPosition", NotImplemented)
  ]

  lemma Block10Bound()
    ensures forall i :: 0 <= i < |BLOCK_10| ==> Bound(BLOCK_10[i])
  {
  }

  /** scripting.rs lines 504-547. */
  const BLOCK_11: seq<Registration> := [
    ScriptGlobalFunction("giScriptClearCTXButCurrent", NotImplemented),
    ScriptGlobalFunction("giAddMoney", NotImplemented),
    ScriptGlobalFunction("giPayMoney", NotImplemented),
    ScriptGlobalFunction("giHideGASkillObject", NotImplemented),
    ScriptGlobalFunction("giShowSignpost", NotImplemented),
    ScriptGlobalFunction("giPlayerSetEmotion", NotImplemented),
    ScriptGlobalFunction("giPlayerResetEmotion", NotImplemented),
    ScriptGlobalFunction("giPlayerCurrentSetEmotion", NotImplemented),
    ScriptGlobalFunction("giPlayerCurrentResetEmotion", NotImplemented),
    ScriptGlobalFunction("giLINGSHALegsInjured", NotImplemented),
    ScriptGlobalFunction("giLINGSHALegsHealing", NotImplemented)
  ]

  lemma Block11Bound()
    ensures forall i :: 0 <= i < |BLOCK_11| ==> Bound(BLOCK_11[i])
  {
  }

  /** scripting.rs lines 548-591. */
  const BLOCK_12: seq<Registration> := [
    ScriptGlobalFunction("giNpcSetEmotion", NotImplemented),
    ScriptGlobalFunction("giNpcResetEmotion", NotImplemented),
    ScriptGlobalFunction("giGetPropertyNumb", NotImplemented),
    ScriptGlobalFunction("giPlayerCurrentGetPosX", NotImplemented),
    ScriptGlobalFunction("giPlayerCurrentGetPosY", NotImplemented),
    ScriptGlobalFunction("giPlayerCurrentGetPosZ", NotImplemented),
    ScriptGlobalFunction("giArenaGetName", NotImplemented),
    ScriptGlobalFunction("giArenaGetArea", NotImplemented),
    ScriptGlobalFunction("giArenaSkillEnable", NotImplemented),
    ScriptGlobalFunction("giShowInnDialog", NotImplemented),
    ScriptGlobalFunction("giGetInnDialogResult", NotImplemented)
  ]

  lemma Block12Bound()
    ensures forall i :: 0 <= i < |BLOCK_12| ==> Bound(BLOCK_12[i])
  {
  }

  /** scripting.rs lines 592-635. */
  const BLOCK_13: seq<Registration> := [
    ScriptGlobalFunction("giPlayerTakeARest", NotImplemented),
    ScriptGlobalFunction("giIsNightTime", NotImplemented),
    ScriptGlobalFunction("giPlayerSetPosRot1", NotImplemented),
    ScriptGlobalFunction("giPlayerSetPosRot2", NotImplemented),
    ScriptGlobalFunction("giStartUiTimer", NotImplemented),
    ScriptGlobalFunction("giPlayerForbidenSkill", NotImplemented),
    ScriptGlobalFunction("giGetMoney", NotImplemented),
    ScriptGlobalFunction("giSelectDialogSetDefaultSelect", NotImplemented),
    ScriptGlobalFunction("giShowQuestDialog", NotImplemented),
    ScriptGlobalFunction("giGetQuestDialogResult", NotImplemented),
    ScriptGlobalFunction("giResetPlayerToJumpStart", NotImplemented)
  ]

  lemma Block13Bound()
    ensures forall i :: 0 <= i < |BLOCK_13| ==> Bound(BLOCK_13[i])
  {
  }

  /** scripting.rs lines 636-679. */
  const BLOCK_14: seq<Registration> := [
    ScriptGlobalFunction("giGOBReset", NotImplemented),
    ScriptGlobalFunction("giCheckEquipInInventory", NotImplemented),
    ScriptGlobalFunction("giRemoveEquipment", NotImplemented),
    ScriptGlobalFunction("giAddPrescription", NotImplemented),
    ScriptGlobalFunction("giEnableShadow", NotImplemented),
    ScriptGlobalFunction("giAddRoundTimes", NotImplemented),
    ScriptGlobalFunction("giTimeScript", NotImplemented),
    ScriptGlobalFunction("giTimeScriptTerminate", NotImplemented),
    ScriptGlobalFunction("giConfigCombatGroundCamera", NotImplemented),
    ScriptGlobalFunction("giAddPlayerFavor", NotImplemented),
    ScriptGlobalFunction("giGetPalTestResult", NotImplemented)
  ]

  lemma Block14Bound()
    ensures forall i :: 0 <= i < |BLOCK_14| ==> Bound(BLOCK_14[i])
  {
  }

  /** scripting.rs lines 680-723. */
  const BLOCK_15: seq<Registration> := [
    ScriptGlobalFunction("giSetMinimapLevel", NotImplemented),
    ScriptGlobalFunction("giPetShow", NotImplemented),
    ScriptGlobalFunction("giNpcAttachEffect", NotImplemented),
    ScriptGlobalFunction("giNpcDetachEffect", NotImplemented),
    ScriptGlobalFunction("giMstAttachEffect", NotImplemented),
    ScriptGlobalFunction("giMstDetachEffect", NotImplemented),
    ScriptGlobalFunction("giPlayerHookEffect", NotImplemented),
    ScriptGlobalFunction("giPlayerDetachEffect", NotImplemented),
    ScriptGlobalFunction("giCommonDialogGetLastSelect", NotImplemented),
    ScriptGlobalFunction("giConfigCombatVipMonster", NotImplemented),
    ScriptGlobalFunction("giEnableSTS", NotImplemented)
  ]

  lemma Block15Bound()
    ensures forall i :: 0 <= i < |BLOCK_15| ==> Bound(BLOCK_15[i])
  {
  }

  /** scripting.rs lines 724-764. */
  const BLOCK_16: seq<Registration> := [
    ScriptGlobalFunction("giClearUiTimer", NotImplemented),
    ScriptGlobalFunction("giPauseUiTimer", NotImplemented),
    ScriptGlobalFunction("giResumeUiTimer", NotImplemented),
    ScriptGlobalFunction("giSetFullRage", NotImplemented),
    ScriptGlobalFunction("giUiTimerGetSaveData", NotImplemented),
    ScriptGlobalFunction("giScriptMusicPause", ScriptMusicPause),
    ScriptGlobalFunction("giScriptMusicResume", ScriptMusicResume),
    ScriptGlobalFunction("giUnknown", NotImplemented),
    ScriptGlobalFunction("giWait", Wait),
    ScriptGlobalFunction("giTalk", NotImplemented),
    ScriptGlobalFunction("giRandTalkPush", NotImplemented)
  ]

  lemma Block16Bound()
    ensures forall i :: 0 <= i < |BLOCK_16| ==> Bound(BLOCK_16[i])
  {
  }

  /** scripting.rs lines 765-808. */
  const BLOCK_17: seq<Registration> := [
    ScriptGlobalFunction("giRandTalk", NotImplemented),
    ScriptGlobalFunction("giRandTalkRelease", NotImplemented),
    ScriptGlobalFunction("giTalkWait", NotImplemented),
    ScriptGlobalFunction("giPlayerDoAction", NotImplemented),
    ScriptGlobalFunction("giPlayerEndAction", NotImplemented),
    ScriptGlobalFunction("giPlayerCurrentDoAction", NotImplemented),
    ScriptGlobalFunction("giPlayerCurrentEndAction", NotImplemented),
    ScriptGlobalFunction("giPlayerSetPos", NotImplemented),
    ScriptGlobalFunction("giPlayerCurrentSetPos", NotImplemented),
    ScriptGlobalFunction("giPlayerSetRot", NotImplemented),
    ScriptGlobalFunction("giPlayerSetAng", NotImplemented)
  ]

  lemma Block17Bound()
    ensures forall i :: 0 <= i < |BLOCK_17| ==> Bound(BLOCK_17[i])
  {
  }

  /** scripting.rs lines 809-852. */
  const BLOCK_18: seq<Registration> := [
    ScriptGlobalFunction("giPlayerCurrentSetAng", NotImplemented),
    ScriptGlobalFunction("giPlayerFaceToPlayer", NotImplemented),
    ScriptGlobalFunction("giPlayerSetDir", NotImplemented),
    ScriptGlobalFunction("giPlayerFaceToNpc", NotImplemented),
    ScriptGlobalFunction("giPlayerWalkTo", NotImplemented),
    ScriptGlobalFunction("giPlayerRunTo", NotImplemented),
    ScriptGlobalFunction("giPlayerCurrentWalkTo", NotImplemented),
    ScriptGlobalFunction("giPlayerBackTo", NotImplemented),
    ScriptGlobalFunction("giPlayerBlendOut", NotImplemented),
    ScriptGlobalFunction("giPlayerBlendIn", NotImplemented),
    ScriptGlobalFunction("giPlayerFaceToCurrentPlayer", NotImplemented)
  ]

  lemma Block18Bound()
    ensures forall i :: 0 <= i < |BLOCK_18| ==> Bound(BLOCK_18[i])
  {
  }

  /** scripting.rs lines 853-896. */
  const BLOCK_19: seq<Registration> := [
    ScriptGlobalFunction("giCurrentPlayerFaceToNpc", NotImplemented),
    ScriptGlobalFunction("giPlayerDoActionRepeat", NotImplemented),
    ScriptGlobalFunction("giPlayerEndActionRepeat", NotImplemented),
    ScriptGlobalFunction("giPlayerEndMove", NotImplemented),
    ScriptGlobalFunction("giCurrentPlayerEndMove", NotImplemented),
    ScriptGlobalFunction("giNpcWalkTo", NotImplemented),
    ScriptGlobalFunction("giNpcRunTo", NotImplemented),
    ScriptGlobalFunction("giNpcBackTo", NotImplemented),
    ScriptGlobalFunction("giNpcDoAction", NotImplemented),
    ScriptGlobalFunction("giNpcEndAction", NotImplemented),
    ScriptGlobalFunction("giNpcSetPos", NotImplemented)
  ]

  lemma Block19Bound()
    ensures forall i :: 0 <= i < |BLOCK_19| ==> Bound(BLOCK_19[i])
  {
  }

  /** scripting.rs lines 897-940. */
  const BLOCK_20: seq<Registration> := [
    ScriptGlobalFunction("giNpcSetRot", NotImplemented),
    ScriptGlobalFunction("giNpcSetDir", NotImplemented),
    ScriptGlobalFunction("giNpcFaceToNpc", NotImplemented),
    ScriptGlobalFunction("giNpcFaceToPlayer", NotImplemented),
    ScriptGlobalFunction("giNpcBlendOut", NotImplemented),
    ScriptGlobalFunction("giNpcBlendIn", NotImplemented),
    ScriptGlobalFunction("giNpcFaceToCurrentPlayer", NotImplemented),
    ScriptGlobalFunction("giNpcResetDir", NotImplemented),
    ScriptGlobalFunction("giNpcDoActionRepeat", NotImplemented),
    ScriptGlobalFunction("giNpcEndActionRepeat", NotImplemented),
    ScriptGlobalFunction("giNpcEndMove", NotImplemented)
  ]

  lemma Block20Bound()
    ensures forall i :: 0 <= i < |BLOCK_20| ==> Bound(BLOCK_20[i])
  {
  }

  /** scripting.rs lines 941-984. */
  const BLOCK_21: seq<Registration> := [
    ScriptGlobalFunction("giNpcSetAng", NotImplemented),
    ScriptGlobalFunction("giCameraPrepare", NotImplemented),
    ScriptGlobalFunction("giCameraRunSingle", NotImplemented),
    ScriptGlobalFunction("giCameraRunCircle", NotImplemented),
    ScriptGlobalFunction("giCameraWait", NotImplemented),
    ScriptGlobalFunction("giFlashOutBlack", FlashOutBlack),
    ScriptGlobalFunction("giFlashInBlack", NotImplemented),
    ScriptGlobalFunction("giFlashOutWhite", NotImplemented),
    ScriptGlobalFunction("giFlashInWhite", NotImplemented),
    ScriptGlobalFunction("giFlashOutRed", NotImplemented),
    ScriptGlobalFunction("giFlashInRed", NotImplemented)
  ]

  lemma Block21Bound()
    ensures forall i :: 0 <= i < |BLOCK_21| ==> Bound(BLOCK_21[i])
  {
  }

  /** scripting.rs lines 985-1028. */
  const BLOCK_22: seq<Registration> := [
    ScriptGlobalFunction("giPlayMovie", PlayMovie),
    ScriptGlobalFunction("giObjectDoAction", NotImplemented),
    ScriptGlobalFunction("giStartTradeSystem", NotImplemented),
    ScriptGlobalFunction("giStartPuzzleGame", NotImplemented),
    ScriptGlobalFunction("giStartJigsawGame", NotImplemented),
    ScriptGlobalFunction("giOBJBlendOut", NotImplemented),
    ScriptGlobalFunction("giOBJBlendIn", NotImplemented),
    ScriptGlobalFunction("giMSTBlendOut", NotImplemented),
    ScriptGlobalFunction("giMSTBlendIn", NotImplemented),
    ScriptGlobalFunction("giShowCommonDialog", NotImplemented),
    ScriptGlobalFunction("giShowSelectDialog", NotImplemented)
  ]

  lemma Block22Bound()
    ensures forall i :: 0 <= i < |BLOCK_22| ==> Bound(BLOCK_22[i])
  {
  }

  /** scripting.rs lines 1029-1072. */
  const BLOCK_23: seq<Registration> := [
    ScriptGlobalFunction("giGOBMovment", NotImplemented),
    ScriptGlobalFunction("giShowTutorial", NotImplemented),
    ScriptGlobalFunction("giShowWorldMap", NotImplemented),
    ScriptGlobalFunction("giGOBScale", NotImplemented),
    ScriptGlobalFunction("giPlayerCurrentFaceToGOB", NotImplemented),
    ScriptGlobalFunction("giPlayerCurrentMovement", NotImplemented),
    ScriptGlobalFunction("giShowPoetry", NotImplemented),
    ScriptGlobalFunction("giNPCFlyTo", NotImplemented),
    ScriptGlobalFunction("giGotoLogoWait", NotImplemented),
    ScriptGlobalFunction("giShowCommonDialogInSelectMode", NotImplemented),
    ScriptGlobalFunction("giPlayMovieFinal", NotImplemented)
  ]

  lemma Block23Bound()
    ensures forall i :: 0 <= i < |BLOCK_23| ==> Bound(BLOCK_23[i])
  {
  }

  /** Blocks 0 to 5 of the table. */
  const PART_0: seq<Registration> := BLOCK_0 + BLOCK_1 + BLOCK_2 + BLOCK_3 + BLOCK_4 + BLOCK_5

  lemma Part0Bound()
    ensures forall i :: 0 <= i < |PART_0| ==> Bound(PART_0[i])
  {
    Block0Bound();
    Block1Bound();
    Block2Bound();
    Block3Bound();
    Block4Bound();
    Block5Bound();
  }

  /** Blocks 6 to 11 of the table. */
  const PART_1: seq<Registration> := BLOCK_6 + BLOCK_7 + BLOCK_8 + BLOCK_9 + BLOCK_10 + BLOCK_11

  lemma Part1Bound()
    ensures forall i :: 0 <= i < |PART_1| ==> Bound(PART_1[i])
  {
    Block6Bound();
    Block7Bound();
    Block8Bound();
    Block9Bound();
    Block10Bound();
    Block11Bound();
  }

  /** Blocks 12 to 17 of the table. */
  const PART_2: seq<Registration> := BLOCK_12 + BLOCK_13 + BLOCK_14 + BLOCK_15 + BLOCK_16 + BLOCK_17

  lemma Part2Bound()
    ensures forall i :: 0 <= i < |PART_2| ==> Bound(PART_2[i])
  {
    Block12Bound();
    Block13Bound();
    Block14Bound();
    Block15Bound();
    Block16Bound();
    Block17Bound();
  }

  /** Blocks 18 to 23 of the table. */
  const PART_3: seq<Registration> := BLOCK_18 + BLOCK_19 + BLOCK_20 + BLOCK_21 + BLOCK_22 + BLOCK_23

  lemma Part3Bound()
    ensures forall i :: 0 <= i < |PART_3| ==> Bound(PART_3[i])
  {
    Block18Bound();
    Block19Bound();
    Block20Bound();
    Block21Bound();
    Block22Bound();
    Block23Bound();
  }

  /** Every registration of `create_context`, in source order. */
  const REGISTRATIONS: seq<Registration> := PART_0 + PART_1 + PART_2 + PART_3

  /** Every registration carries the handler its name is bound to. */
  lemma AllBound()
    ensures forall i :: 0 <= i < |REGISTRATIONS| ==> Bound(REGISTRATIONS[i])
  {
    Part0Bound();
    Part1Bound();
    Part2Bound();
    Part3Bound();
  }

  /** The implemented names registered in the first half of the table. */
  lemma EarlyImplementedRegistered(name: string)
    requires name in {"giIMMBegin", "giIMMEnd", "giNewGame", "giArenaLoad", "giOpenMovieFlag", "giAddQuestComplatePercentage"}
    ensures Registered(REGISTRATIONS, name)
  {
    if name == "giIMMBegin" {
      assert REGISTRATIONS[0].name == name;
    } else if name == "giIMMEnd" {
      assert REGISTRATIONS[1].name == name;
    } else if name == "giNewGame" {
      assert REGISTRATIONS[2].name == name;
    } else if name == "giArenaLoad" {
      assert REGISTRATIONS[10].name == name;
    } else if name == "giOpenMovieFlag" {
      assert REGISTRATIONS[54].name == name;
    } else {
      assert name == "giAddQuestComplatePercentage";
      assert REGISTRATIONS[55].name == name;
    }
  }

  /** The implemented names registered in the second half of the table. */
  lemma LateImplementedRegistered(name: string)
    requires name in {"giScriptMusicPause", "giScriptMusicResume", "giWait", "giFlashOutBlack", "giPlayMovie"}
    ensures Registered(REGISTRATIONS, name)
  {
    if name == "giScriptMusicPause" {
      assert REGISTRATIONS[181].name == name;
    } else if name == "giScriptMusicResume" {
      assert REGISTRATIONS[182].name == name;
    } else if name == "giWait" {
      assert REGISTRATIONS[184].name == name;
    } else if name == "giFlashOutBlack" {
      assert REGISTRATIONS[236].name == name;
    } else {
      assert name == "giPlayMovie";
      assert REGISTRATIONS[242].name == name;
    }
  }

  /** Each implemented name is registered. */
  lemma ImplementedRegistered(name: string)
    requires name in IMPLEMENTED
    ensures Registered(REGISTRATIONS, name)
  {
    if name in {"giIMMBegin", "giIMMEnd", "giNewGame", "giArenaLoad", "giOpenMovieFlag", "giAddQuestComplatePercentage"} {
      EarlyImplementedRegistered(name);
    } else {
      LateImplementedRegistered(name);
    }
  }

  /** Looking a name up in the table does not depend on whether a later registration
      overwrites an earlier one: the eleven implemented names find their own handler,
      every other registered name finds `not_implemented`, and an unregistered name
      finds nothing. */
  lemma LookupBound(name: string)
    ensures LookupFirst(REGISTRATIONS, name) == LookupLast(REGISTRATIONS, name)
    ensures name in IMPLEMENTED ==> LookupFirst(REGISTRATIONS, name) == Some(IMPLEMENTED[name])
    ensures name !in IMPLEMENTED && Registered(REGISTRATIONS, name) ==> LookupFirst(REGISTRATIONS, name) == Some(NotImplemented)
    ensures !Registered(REGISTRATIONS, name) ==> LookupFirst(REGISTRATIONS, name) == None
  {
    AllBound();
    var h := if name in IMPLEMENTED then IMPLEMENTED[name] else NotImplemented;
    forall i | 0 <= i < |REGISTRATIONS| && REGISTRATIONS[i].name == name
      ensures REGISTRATIONS[i].handler == h
    {
      assert Bound(REGISTRATIONS[i]);
    }
    LookupPolicyIrrelevant(REGISTRATIONS, name, h);
    if name in IMPLEMENTED {
      ImplementedRegistered(name);
    }
  }

  /** The last registration, `giPlayMovieFinal`, is a stub although `giPlayMovie` is not. */
  lemma PlayMovieFinalIsStub()
    ensures LookupFirst(REGISTRATIONS, "giPlayMovieFinal") == Some(NotImplemented)
    ensures LookupFirst(REGISTRATIONS, "giPlayMovie") == Some(PlayMovie)
  {
    assert REGISTRATIONS[263].name == "giPlayMovieFinal";
    LookupBound("giPlayMovieFinal");
    LookupBound("giPlayMovie");
  }

  /** Registers every entry of `table`, in order, after those `context` already holds. */
  method RegisterAll(context: ScriptGlobalContext<Handler>, table: seq<Registration>)
    returns (r: ScriptGlobalContext<Handler>)
    ensures r.functions == context.functions + table
  {
    r := context;
    for i := 0 to |table|
      invariant r.functions == context.functions + table[..i]
    {
      assert table[..i + 1] == table[..i] + [table[i]];
      r := r.Register(table[i]);
    }
    assert table[..|table|] == table;
  }

  /** `create_context`: an empty context with every entry of the table registered in
      source order. */
  method CreateContext() returns (context: ScriptGlobalContext<Handler>)
    ensures context.functions == REGISTRATIONS
    ensures |context.functions| == 264
  {
    context := RegisterAll(ScriptGlobalContext([]), REGISTRATIONS);
    assert [] + REGISTRATIONS == REGISTRATIONS;
  }
}
